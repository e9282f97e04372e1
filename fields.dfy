/**
 * How the serializer fields the endpoints rely on read a payload value:
 * a `CharField` takes text as it is and a number as its decimal text and
 * rejects null, booleans and lists; a `PrimaryKeyRelatedField` over an
 * integer key takes a number or a numeral.
 */
module Fields {
  import opened Common

  predicate IsDigit(c: char)
  {
    '0' <= c <= '9'
  }

  function DigitChar(d: nat): (c: char)
    requires d < 10
    ensures IsDigit(c) && c as int - '0' as int == d
  {
    ('0' as int + d) as char
  }

  /** The decimal text of a natural number, without leading zeros. */
  function NatText(n: nat): (r: string)
    ensures r != [] && forall c | c in r :: IsDigit(c)
    decreases n
  {
    if n < 10 then [DigitChar(n)] else NatText(n / 10) + [DigitChar(n % 10)]
  }

  /** `str(n)` for an integer. */
  function IntText(n: int): (r: string)
    ensures r != []
  {
    if n < 0 then "-" + NatText(-n) else NatText(n)
  }

  /** The number a string of decimal digits denotes (`int(s)`). */
  function DigitsValue(s: string): (r: nat)
    requires forall c | c in s :: IsDigit(c)
  {
    if s == [] then 0
    else
      assert IsDigit(s[|s| - 1]);
      DigitsValue(s[..|s| - 1]) * 10 + (s[|s| - 1] as int - '0' as int)
  }

  /** Reading back the decimal text of a number gives the number. */
  lemma {:induction false} NatTextRoundTrip(n: nat)
    ensures DigitsValue(NatText(n)) == n
    decreases n
  {
    if n >= 10 {
      NatTextRoundTrip(n / 10);
      var s := NatText(n);
      assert s[..|s| - 1] == NatText(n / 10);
    }
  }

  /** A `CharField`'s reading of a value, before length checks; None where it reports an error. */
  function CharInput(v: Value): (r: Option<string>)
    ensures v.Str? ==> r == Some(v.s)
    ensures v.Num? ==> r.Some? && r.value != ""
    ensures v.Null? || v.Bool? || v.List? ==> r.None?
  {
    match v
    case Str(s) => Some(s)
    case Num(n) => Some(IntText(n))
    case _ => None
  }

  /** An optional `CharField` with `allow_blank` and a maximum length: absent, or text within the limit. */
  predicate OptionalCharOk(d: Payload, k: string, maxLength: nat)
  {
    k !in d || (CharInput(d[k]).Some? && |CharInput(d[k]).value| <= maxLength)
  }

  /** The text an optional `CharField` contributes to a new row: its reading, or the model default "". */
  function CharOrBlank(d: Payload, k: string): string
  {
    if k in d && CharInput(d[k]).Some? then CharInput(d[k]).value else ""
  }

  /** A `PrimaryKeyRelatedField` over an integer key: a number, or a string of digits. */
  function KeyInput(v: Value): Option<int>
  {
    match v
    case Num(n) => Some(n)
    case Str(s) => if s != [] && forall c | c in s :: IsDigit(c) then Some(DigitsValue(s)) else None
    case _ => None
  }

  /** A number sent as its numeral names the same key as the number itself. */
  lemma NumeralNamesSameKey(n: nat)
    ensures KeyInput(Str(NatText(n))) == KeyInput(Num(n))
  {
    NatTextRoundTrip(n);
  }

  /** An optional `BooleanField`: absent (the model default False) or a boolean. */
  predicate OptionalBoolOk(d: Payload, k: string)
  {
    k !in d || d[k].Bool?
  }

  function BoolOrFalse(d: Payload, k: string): bool
  {
    k in d && d[k].Bool? && d[k].b
  }
}
