/** The few pieces of java.lang and java.util behaviour the lineage event relies on:
    nullable references, the exceptions it can raise, the unchecked casts it applies
    to `Object` values, `String.valueOf`, and `Long.toString` / `Long.parseLong`. */
module JavaLang {

  /** A Java reference that may be null. */
  datatype Nullable<T> = Null | Value(v: T)

  /** A `java.lang.String` reference. */
  type JString = Nullable<string>

  /** The runtime shapes an `Object` held in a `Map<String, Object>` takes here:
      null, a String, a List of Strings, or any other object (kept as its toString). */
  datatype JValue = JNull | JStr(s: string) | JList(items: seq<string>) | JObject(text: string)

  /** The exceptions the modelled code can raise. */
  datatype JavaException =
    | NullPointerException
    | ClassCastException
    | NumberFormatException(input: JString)
    | IllegalArgumentException(name: string)

  /** A computation that either returns normally or throws. */
  datatype Result<T> = Success(value: T) | Failure(error: JavaException)

  /** `Map.get` on a `Map<K, String>`: null when the key is absent. */
  function Get<K>(m: map<K, JString>, k: K): (r: JString)
    ensures r.Value? ==> k in m && m[k] == r
    ensures k !in m ==> r == Null
  {
    if k in m then m[k] else Null
  }

  /** `StringUtils.isEmpty`: null or of length zero. */
  predicate IsEmpty(s: JString)
  {
    s == Null || s == Value("")
  }

  /** `(String) o`: null passes the cast, a String is itself, anything else throws. */
  function CastToString(o: JValue): (r: Result<JString>)
    ensures r.Success? <==> (o.JNull? || o.JStr?)
    ensures r.Success? && r.value.Value? ==> o == JStr(r.value.v)
    ensures r.Failure? ==> r.error == ClassCastException
  {
    match o
    case JNull => Success(Null)
    case JStr(s) => Success(Value(s))
    case _ => Failure(ClassCastException)
  }

  /** `(List) o`: null passes the cast, a List is itself, anything else throws. */
  function CastToList(o: JValue): (r: Result<Nullable<seq<string>>>)
    ensures r.Success? <==> (o.JNull? || o.JList?)
    ensures r.Success? && r.value.Value? ==> o == JList(r.value.v)
    ensures r.Failure? ==> r.error == ClassCastException
  {
    match o
    case JNull => Success(Null)
    case JList(items) => Success(Value(items))
    case _ => Failure(ClassCastException)
  }

  /** The elements of a list separated by ", ", as `AbstractCollection.toString` writes them. */
  function JoinComma(items: seq<string>): string
  {
    if |items| == 0 then ""
    else if |items| == 1 then items[0]
    else items[0] + ", " + JoinComma(items[1..])
  }

  /** `String.valueOf(Object)`: "null" for null, otherwise the object's toString. */
  function ValueOf(o: JValue): (r: string)
    ensures o.JStr? ==> r == o.s
    ensures o.JNull? ==> r == "null"
    ensures o.JList? ==> |r| >= 2 && r[0] == '[' && r[|r| - 1] == ']'
  {
    match o
    case JNull => "null"
    case JStr(s) => s
    case JList(items) => "[" + JoinComma(items) + "]"
    case JObject(text) => text
  }

  // ---------------------------------------------------------------------
  // Java `long` and its decimal text form
  // ---------------------------------------------------------------------

  const LongMin: int := -0x8000_0000_0000_0000
  const LongMax: int := 0x7FFF_FFFF_FFFF_FFFF

  /** A Java `long`. */
  type Long = x: int | LongMin <= x <= LongMax

  predicate IsDigit(c: char)
  {
    '0' <= c <= '9'
  }

  predicate AllDigits(s: string)
  {
    forall i | 0 <= i < |s| :: IsDigit(s[i])
  }

  function DigitChar(d: int): (c: char)
    requires 0 <= d < 10
    ensures IsDigit(c) && c as int - '0' as int == d
  {
    ('0' as int + d) as char
  }

  /** Decimal digits of a natural number, most significant first, no leading zeros. */
  function NatDigits(n: nat): (s: string)
    ensures |s| > 0 && AllDigits(s)
    ensures |s| > 1 ==> s[0] != '0'
    decreases n
  {
    if n < 10 then [DigitChar(n)] else NatDigits(n / 10) + [DigitChar(n % 10)]
  }

  /** The number a string of decimal digits denotes (unbounded). */
  function DigitsValue(s: string): nat
    requires AllDigits(s)
  {
    if |s| == 0 then 0
    else DigitsValue(s[..|s| - 1]) * 10 + (s[|s| - 1] as int - '0' as int)
  }

  /** `Long.toString(n)`: an optional minus sign, then the digits of |n|. */
  function FormatLong(n: Long): (s: string)
    ensures |s| > 0
    ensures (s[0] == '-') <==> n < 0
  {
    if n < 0 then "-" + NatDigits(-(n as int)) else NatDigits(n)
  }

  /** `Long.parseLong(s)`: an optional '-' or '+' followed by at least one ASCII digit,
      denoting a value inside the `long` range; anything else, null included, throws
      NumberFormatException. */
  function ParseLong(s: JString): (r: Result<Long>)
    ensures r.Failure? ==> r.error == NumberFormatException(s)
    ensures r.Success? ==> s.Value? && |s.v| > 0 && AllDigits(if s.v[0] == '-' || s.v[0] == '+' then s.v[1..] else s.v)
    ensures r.Success? && s.v[0] == '-' ==> r.value <= 0
    ensures r.Success? && s.v[0] != '-' ==> r.value >= 0
    ensures s.Value? && |s.v| > 0 && AllDigits(s.v) && DigitsValue(s.v) <= LongMax ==>
      r == Success(DigitsValue(s.v))
  {
    match s
    case Null => Failure(NumberFormatException(s))
    case Value(t) =>
      if |t| == 0 then Failure(NumberFormatException(s))
      else
        var negative := t[0] == '-';
        var digits := if t[0] == '-' || t[0] == '+' then t[1..] else t;
        if |digits| == 0 || !AllDigits(digits) then Failure(NumberFormatException(s))
        else
          var n: int := if negative then -(DigitsValue(digits) as int) else DigitsValue(digits);
          if LongMin <= n <= LongMax then Success(n) else Failure(NumberFormatException(s))
  }

  lemma {:induction false} DigitsRoundTrip(n: nat)
    ensures DigitsValue(NatDigits(n)) == n
    decreases n
  {
    if n >= 10 {
      var prefix := NatDigits(n / 10);
      var s := prefix + [DigitChar(n % 10)];
      assert s[..|s| - 1] == prefix;
      DigitsRoundTrip(n / 10);
    }
  }

  /** Reading back what `Long.toString` wrote gives the original `long`. */
  lemma LongRoundTrip(n: Long)
    ensures ParseLong(Value(FormatLong(n))) == Success(n)
  {
    var t := FormatLong(n);
    if n < 0 {
      assert t[1..] == NatDigits(-(n as int));
      DigitsRoundTrip(-(n as int));
    } else {
      DigitsRoundTrip(n);
    }
  }
}
