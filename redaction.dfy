/** The masking rule applied to runtime parameters before they are stored in an
    event's properties: a parameter whose key matches `.*password.*`, compiled with
    CASE_INSENSITIVE only, is replaced by as many asterisks as its value has
    characters. */
module Redaction {
  import opened JavaLang

  /** The literal of the sensitive-key pattern. */
  const Word: string := "password"

  /** The characters Java's `.` refuses when DOTALL and UNIX_LINES are off. */
  predicate IsLineTerminator(c: char)
  {
    c == '\n' || c == '\r' || c == '\U{0085}' || c == '\U{2028}' || c == '\U{2029}'
  }

  predicate NoLineTerminator(s: string)
  {
    forall i | 0 <= i < |s| :: !IsLineTerminator(s[i])
  }

  /** CASE_INSENSITIVE without UNICODE_CASE folds US-ASCII letters only. */
  function AsciiLower(c: char): (r: char)
    ensures 'A' <= c <= 'Z' ==> r as int == c as int + 32
    ensures !('A' <= c <= 'Z') ==> r == c
  {
    if 'A' <= c <= 'Z' then (c as int + 32) as char else c
  }

  /** `w` equals the lower-case literal `lit` up to ASCII case. */
  predicate FoldsTo(w: string, lit: string)
  {
    |w| == |lit| && forall j | 0 <= j < |w| :: AsciiLower(w[j]) == lit[j]
  }

  /** The word occurs, up to ASCII case, at position `p` of `k`. */
  predicate WordAt(k: string, p: nat)
  {
    p + |Word| <= |k| && FoldsTo(k[p..p + |Word|], Word)
  }

  /** `k` splits at `p` as `.*`, the word, `.*`. */
  predicate SplitsAt(k: string, p: nat)
  {
    WordAt(k, p) && NoLineTerminator(k[..p]) && NoLineTerminator(k[p + |Word|..])
  }

  /** What `.*password.*` matches as a whole: a prefix and a suffix free of line
      terminators around a case-insensitive occurrence of the word. */
  ghost predicate MatchesSensitivePattern(k: string)
  {
    exists p: nat :: SplitsAt(k, p)
  }

  /** The word occurs, up to ASCII case, at some position from `i` on. */
  predicate ContainsWordFrom(k: string, i: nat)
    requires i <= |k|
    decreases |k| - i
  {
    if |k| - i < |Word| then false
    else WordAt(k, i) || ContainsWordFrom(k, i + 1)
  }

  /** `sensitiveProperties.matcher(key).matches()`. */
  predicate IsSensitiveKey(k: string)
  {
    NoLineTerminator(k) && ContainsWordFrom(k, 0)
  }

  lemma {:induction false} ContainsWordFromIff(k: string, i: nat)
    requires i <= |k|
    ensures ContainsWordFrom(k, i) <==> exists p: nat :: i <= p && WordAt(k, p)
    decreases |k| - i
  {
    if |k| - i >= |Word| {
      ContainsWordFromIff(k, i + 1);
      if !ContainsWordFrom(k, i) {
        forall p: nat | i <= p ensures !WordAt(k, p) {
          if p != i {
            assert i + 1 <= p;
          }
        }
      }
    }
  }

  /** A character that folds to a letter of the word is not a line terminator. */
  lemma WordHasNoLineTerminator(w: string)
    requires FoldsTo(w, Word)
    ensures NoLineTerminator(w)
  {
    forall j | 0 <= j < |w| ensures !IsLineTerminator(w[j]) {
      assert 'a' <= Word[j] <= 'z';
    }
  }

  /** The scan above decides exactly the regular expression's language. */
  lemma SensitiveKeyMatchesPattern(k: string)
    ensures IsSensitiveKey(k) <==> MatchesSensitivePattern(k)
  {
    ContainsWordFromIff(k, 0);
    if IsSensitiveKey(k) {
      var p: nat :| WordAt(k, p);
      var prefix, suffix := k[..p], k[p + |Word|..];
      assert NoLineTerminator(prefix) by {
        forall j | 0 <= j < |prefix| ensures !IsLineTerminator(prefix[j]) {
          assert prefix[j] == k[j];
        }
      }
      assert NoLineTerminator(suffix) by {
        forall j | 0 <= j < |suffix| ensures !IsLineTerminator(suffix[j]) {
          assert suffix[j] == k[p + |Word| + j];
        }
      }
      assert SplitsAt(k, p);
    }
    if MatchesSensitivePattern(k) {
      var p: nat :| SplitsAt(k, p);
      WordHasNoLineTerminator(k[p..p + |Word|]);
      forall i | 0 <= i < |k| ensures !IsLineTerminator(k[i]) {
        if i < p {
          assert k[i] == k[..p][i];
        } else if i < p + |Word| {
          assert k[i] == k[p..p + |Word|][i - p];
        } else {
          assert k[i] == k[p + |Word|..][i - (p + |Word|)];
        }
      }
    }
  }

  /** `StringUtils.repeat("*", s.length())`. */
  function Mask(s: string): (r: string)
    ensures |r| == |s|
    ensures forall i | 0 <= i < |r| :: r[i] == '*'
  {
    seq(|s|, _ => '*')
  }

  /** A mask equals the value it hides only when that value is itself all asterisks. */
  lemma MaskHidesValue(s: string)
    ensures Mask(s) == s <==> forall i | 0 <= i < |s| :: s[i] == '*'
  {
    if forall i | 0 <= i < |s| :: s[i] == '*' {
      assert Mask(s) == s;
    }
  }

  /** What the constructor stores under a parameter's key. For a sensitive key the
      value is cast to String, so null throws NullPointerException (on `.length()`)
      and any other non-String throws ClassCastException; other keys store
      `String.valueOf(value)`. */
  function RedactParameter(k: string, o: JValue): (r: Result<string>)
    ensures IsSensitiveKey(k) ==> (r.Success? <==> o.JStr?)
    ensures IsSensitiveKey(k) && r.Success? ==>
      |r.value| == |o.s| && forall i | 0 <= i < |r.value| :: r.value[i] == '*'
    ensures IsSensitiveKey(k) && o.JNull? ==> r == Failure(NullPointerException)
    ensures IsSensitiveKey(k) && (o.JList? || o.JObject?) ==> r == Failure(ClassCastException)
    ensures !IsSensitiveKey(k) ==> r == Success(ValueOf(o))
  {
    if IsSensitiveKey(k) then
      match o
      case JStr(s) => Success(Mask(s))
      case JNull => Failure(NullPointerException)
      case _ => Failure(ClassCastException)
    else Success(ValueOf(o))
  }

  /** The raw value of a sensitive parameter is never what gets stored, unless that
      value consists of asterisks only. */
  lemma RawSecretNeverStored(k: string, s: string, i: nat)
    requires IsSensitiveKey(k)
    requires i < |s| && s[i] != '*'
    ensures RedactParameter(k, JStr(s)) != Success(s)
  {
    MaskHidesValue(s);
  }

  /** "DB_PASSWORD" is sensitive and "secret12" is stored as eight asterisks. */
  lemma MasksDbPassword()
    ensures RedactParameter("DB_PASSWORD", JStr("secret12")) == Success("********")
  {
    var k := "DB_PASSWORD";
    assert k[3..11] == "PASSWORD";
    assert FoldsTo(k[3..11], Word);
    assert WordAt(k, 3);
    assert ContainsWordFrom(k, 2);
    assert ContainsWordFrom(k, 0);
    assert NoLineTerminator(k);
    assert IsSensitiveKey(k);
    assert Mask("secret12") == "********";
  }

  /** A line terminator anywhere in the key defeats the pattern, which has no DOTALL. */
  lemma LineTerminatorDefeatsPattern(k: string, i: nat)
    requires i < |k| && IsLineTerminator(k[i])
    ensures !IsSensitiveKey(k)
    ensures RedactParameter(k, JNull) == Success("null")
  {
  }
}
