/** What `missingSpecificAttributes` is meant to compute: the attributes the event's
    type requires that are absent, null or empty. */
module Validation {
  import opened JavaLang
  import opened LineageTypes

  /** The required attributes whose stored value is absent, null or empty. */
  function MissingSet(required: seq<SpecificAttribute>, specific: map<SpecificAttribute, JString>): set<SpecificAttribute>
  {
    set a | a in required && IsEmpty(Get(specific, a))
  }

  /** Nothing is missing exactly when every required attribute is present with a
      non-empty value. */
  lemma NothingMissingIff(required: seq<SpecificAttribute>, specific: map<SpecificAttribute, JString>)
    ensures MissingSet(required, specific) == {} <==>
      forall a | a in required :: a in specific && specific[a].Value? && specific[a].v != ""
  {
    if MissingSet(required, specific) == {} {
      forall a | a in required ensures a in specific && specific[a].Value? && specific[a].v != "" {
        assert a !in MissingSet(required, specific);
      }
    } else {
      var a :| a in MissingSet(required, specific);
      assert a in required && IsEmpty(Get(specific, a));
    }
  }

  /** The attributes `removeAll` leaves behind are already among the empty ones: a
      key that is absent reads as null. */
  lemma AbsentIsMissing(required: seq<SpecificAttribute>, specific: map<SpecificAttribute, JString>)
    ensures (set a | a in required) - specific.Keys <= MissingSet(required, specific)
  {
    forall a | a in (set a | a in required) - specific.Keys
      ensures a in MissingSet(required, specific)
    {
      assert Get(specific, a) == Null;
    }
  }

  /** Writing a non-empty value for an attribute removes it from the missing set and
      leaves the verdict on every other attribute alone. */
  lemma SettingSatisfies(required: seq<SpecificAttribute>, specific: map<SpecificAttribute, JString>,
                         n: SpecificAttribute, v: string)
    requires v != ""
    ensures MissingSet(required, specific[n := Value(v)]) == MissingSet(required, specific) - {n}
  {
  }
}
