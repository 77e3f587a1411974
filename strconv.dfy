/** Go's strconv.ParseInt(s, 10, 64), which the decoders use for every numeric attribute.
    strconv.Atoi gives the same value and error kind on a 64-bit platform (Go's `int` is
    64 bits wide there), so both are modelled by ParseInt. FormatInt is the base-10
    rendering that encoding/xml's struct-tag marshalling writes for an int64 attribute. */
module Strconv {
  import opened Xml

  const MinInt64: int := -0x8000_0000_0000_0000
  const MaxInt64: int := 0x7fff_ffff_ffff_ffff
  const MaxUint64: int := 0xffff_ffff_ffff_ffff

  type int64 = x: int | MinInt64 <= x <= MaxInt64

  /** The pair (value, error) that ParseInt returns. */
  datatype Num = Num(value: int64, err: Option<Error>)

  predicate IsDigit(c: char)
  {
    '0' <= c <= '9'
  }

  function DigitValue(c: char): nat
    requires IsDigit(c)
  {
    (c as int) - ('0' as int)
  }

  /* ----- Reference definition: what a base-10 numeral is and what it denotes ----- */

  predicate AllDigits(s: string)
  {
    forall k :: 0 <= k < |s| ==> IsDigit(s[k])
  }

  /** The value of a string of decimal digits, read most significant digit first. */
  function DigitsValue(s: string): nat
    requires AllDigits(s)
  {
    if s == [] then 0 else DigitsValue(s[..|s| - 1]) * 10 + DigitValue(s[|s| - 1])
  }

  /** The digits after an optional leading sign. */
  function Unsigned(s: string): string
  {
    if |s| > 0 && (s[0] == '+' || s[0] == '-') then s[1..] else s
  }

  /** An optional '+' or '-' followed by one or more ASCII digits. */
  predicate IsDecimal(s: string)
  {
    |Unsigned(s)| > 0 && AllDigits(Unsigned(s))
  }

  function DecimalValue(s: string): int
    requires IsDecimal(s)
  {
    if s[0] == '-' then -(DigitsValue(Unsigned(s)) as int) else DigitsValue(Unsigned(s))
  }

  /* ----- strconv.ParseUint(s, 10, 64), as Go's atoi.go runs it ----- */

  datatype Unsigned64 = UOk(n: nat) | USyntax | URange

  /** The digit loop from position k with accumulated value n: a non-digit is a syntax
      error, a value past 2^64-1 a range error, whichever comes first. */
  function ParseUintFrom(s: string, k: nat, n: nat): Unsigned64
    requires k <= |s|
    decreases |s| - k
  {
    if k == |s| then UOk(n)
    else if !IsDigit(s[k]) then USyntax
    else if n * 10 + DigitValue(s[k]) > MaxUint64 then URange
    else ParseUintFrom(s, k + 1, n * 10 + DigitValue(s[k]))
  }

  function ParseUint(s: string): Unsigned64
  {
    if s == [] then USyntax else ParseUintFrom(s, 0, 0)
  }

  /** The digit loop meets a non-digit at some position m at or after `from` before the
      digits ahead of m have overflowed 64 bits: the input is then a syntax error. */
  predicate NonDigitBeforeOverflow(u: string, from: nat)
  {
    exists m :: from <= m < |u| && !IsDigit(u[m]) && AllDigits(u[..m]) && DigitsValue(u[..m]) <= MaxUint64
  }

  /** strconv.ParseInt(s, 10, 64). On a syntax error the value is 0; on a range error it
      is the int64 bound on the side of the sign. The decoders store this value into the
      field even when they then return the error. */
  function ParseInt(s: string): (r: Num)
    ensures r.err.None? <==> IsDecimal(s) && MinInt64 <= DecimalValue(s) <= MaxInt64
    ensures r.err.None? ==> r.value == DecimalValue(s)
    ensures r.err.Some? ==> r.err == Some(SyntaxErr(s)) || r.err == Some(RangeErr(s))
    ensures IsDecimal(s) && !(MinInt64 <= DecimalValue(s) <= MaxInt64) ==> r.err == Some(RangeErr(s))
    ensures r.err == Some(SyntaxErr(s)) ==> r.value == 0
    ensures r.err == Some(RangeErr(s)) ==> |s| > 0 && r.value == if s[0] == '-' then MinInt64 else MaxInt64
  {
    if s == [] then Num(0, Some(SyntaxErr(s)))
    else
      var neg := s[0] == '-';
      var u := ParseUint(Unsigned(s));
      ParseUintMeaning(Unsigned(s));
      ParseUintSyntax(Unsigned(s));
      match u
      case USyntax => Num(0, Some(SyntaxErr(s)))
      case URange => Num(if neg then MinInt64 else MaxInt64, Some(RangeErr(s)))
      case UOk(n) =>
        if !neg && n > MaxInt64 then Num(MaxInt64, Some(RangeErr(s)))
        else if neg && n > -MinInt64 then Num(MinInt64, Some(RangeErr(s)))
        else Num(if neg then -(n as int) else n, None)
  }

  /** A digit string's value does not decrease when digits are appended. */
  lemma {:induction false} PrefixValue(s: string, k: nat)
    requires AllDigits(s) && k <= |s|
    ensures AllDigits(s[..k]) && DigitsValue(s[..k]) <= DigitsValue(s)
    decreases |s| - k
  {
    if k < |s| {
      PrefixValue(s, k + 1);
      var p := s[..k + 1];
      assert p[..|p| - 1] == s[..k];
    } else {
      assert s[..k] == s;
    }
  }

  /** The digit loop started with the value of the prefix already read. */
  lemma {:induction false} ParseUintFromMeaning(s: string, k: nat)
    requires k <= |s| && AllDigits(s[..k]) && DigitsValue(s[..k]) <= MaxUint64
    ensures ParseUintFrom(s, k, DigitsValue(s[..k])).UOk?
            <==> AllDigits(s) && DigitsValue(s) <= MaxUint64
    ensures ParseUintFrom(s, k, DigitsValue(s[..k])).UOk?
            ==> ParseUintFrom(s, k, DigitsValue(s[..k])).n == DigitsValue(s)
    decreases |s| - k
  {
    var n := DigitsValue(s[..k]);
    if k == |s| {
      assert s[..k] == s;
    } else {
      var p := s[..k + 1];
      assert p[..|p| - 1] == s[..k];
      if !IsDigit(s[k]) {
        assert !AllDigits(s);
      } else if n * 10 + DigitValue(s[k]) > MaxUint64 {
        assert DigitsValue(p) == n * 10 + DigitValue(s[k]);
        if AllDigits(s) {
          PrefixValue(s, k + 1);
        }
      } else {
        assert DigitsValue(p) == n * 10 + DigitValue(s[k]);
        ParseUintFromMeaning(s, k + 1);
      }
    }
  }

  /** ParseUint accepts exactly the non-empty digit strings whose value fits 64 bits. */
  lemma ParseUintMeaning(s: string)
    ensures ParseUint(s).UOk? <==> |s| > 0 && AllDigits(s) && DigitsValue(s) <= MaxUint64
    ensures ParseUint(s).UOk? ==> ParseUint(s).n == DigitsValue(s)
  {
    if s != [] {
      assert s[..0] == [];
      ParseUintFromMeaning(s, 0);
    }
  }

  /** From position k on, the digit loop reports a syntax error exactly when it meets a
      non-digit before the value has overflowed. */
  lemma {:induction false} ParseUintFromSyntax(s: string, k: nat)
    requires k <= |s| && AllDigits(s[..k]) && DigitsValue(s[..k]) <= MaxUint64
    ensures ParseUintFrom(s, k, DigitsValue(s[..k])).USyntax? <==> NonDigitBeforeOverflow(s, k)
    decreases |s| - k
  {
    var n := DigitsValue(s[..k]);
    if k < |s| {
      var p := s[..k + 1];
      assert p[..|p| - 1] == s[..k];
      if !IsDigit(s[k]) {
        assert !IsDigit(s[k]) && AllDigits(s[..k]) && DigitsValue(s[..k]) <= MaxUint64;
      } else {
        assert AllDigits(p);
        assert DigitsValue(p) == n * 10 + DigitValue(s[k]);
        if n * 10 + DigitValue(s[k]) > MaxUint64 {
          forall m | k < m < |s| && AllDigits(s[..m])
            ensures DigitsValue(s[..m]) > MaxUint64
          {
            PrefixValue(s[..m], k + 1);
            assert s[..m][..k + 1] == p;
          }
        } else {
          ParseUintFromSyntax(s, k + 1);
        }
      }
    }
  }

  /** ParseUint reports a syntax error exactly on the empty string and on a non-digit met
      before the value overflows; a non-digit after an overflow is a range error. */
  lemma ParseUintSyntax(s: string)
    ensures ParseUint(s).USyntax? <==> s == [] || NonDigitBeforeOverflow(s, 0)
  {
    if s != [] {
      assert s[..0] == [];
      ParseUintFromSyntax(s, 0);
    }
  }

  /** Which error ParseInt reports: a syntax error (value 0) exactly when nothing follows
      the sign or a non-digit comes before the value overflows 64 bits; otherwise a
      failure is a range error, so a non-digit after an overflow is a range error too. */
  lemma ParseIntErrorKind(s: string)
    ensures ParseInt(s).err == Some(SyntaxErr(s)) <==> Unsigned(s) == [] || NonDigitBeforeOverflow(Unsigned(s), 0)
    ensures ParseInt(s).err.Some? && ParseInt(s).err != Some(SyntaxErr(s)) ==> ParseInt(s).err == Some(RangeErr(s))
  {
    if s != [] {
      ParseUintSyntax(Unsigned(s));
    }
  }

  /* ----- Encoding: strconv.FormatInt(n, 10) ----- */

  function DigitChar(d: nat): (c: char)
    requires d < 10
    ensures IsDigit(c) && DigitValue(c) == d
  {
    (d + '0' as int) as char
  }

  function FormatNat(n: nat): (s: string)
    decreases n
  {
    if n < 10 then [DigitChar(n)] else FormatNat(n / 10) + [DigitChar(n % 10)]
  }

  function FormatInt(n: int64): (s: string)
  {
    if n < 0 then "-" + FormatNat(-(n as int)) else FormatNat(n)
  }

  lemma {:induction false} FormatNatDigits(n: nat)
    ensures |FormatNat(n)| > 0 && AllDigits(FormatNat(n)) && DigitsValue(FormatNat(n)) == n
    decreases n
  {
    if n >= 10 {
      FormatNatDigits(n / 10);
      var s := FormatNat(n);
      assert s[..|s| - 1] == FormatNat(n / 10);
    }
  }

  /** Round trip: parsing the decimal rendering of any int64 gives it back without error. */
  lemma FormatIntRoundTrip(n: int64)
    ensures ParseInt(FormatInt(n)) == Num(n, None)
  {
    var s := FormatInt(n);
    if n < 0 {
      FormatNatDigits(-(n as int));
      assert Unsigned(s) == FormatNat(-(n as int));
      assert DecimalValue(s) == n;
    } else {
      FormatNatDigits(n);
      assert Unsigned(s) == FormatNat(n);
      assert DecimalValue(s) == n;
    }
  }

  /* ----- Attribute helpers shared by the decoders ----- */

  /** Some attribute whose local name is in `names` does not parse. */
  predicate SomeMalformed(attrs: seq<Attr>, names: set<string>)
  {
    exists k :: 0 <= k < |attrs| && attrs[k].name.local in names && ParseInt(attrs[k].value).err.Some?
  }

  /** The error of the first attribute (in document order) whose local name is in
      `names` and whose value does not parse. */
  function FirstMalformed(attrs: seq<Attr>, names: set<string>): (e: Option<Error>)
    ensures e.Some? <==> SomeMalformed(attrs, names)
  {
    if attrs == [] then None
    else if attrs[0].name.local in names && ParseInt(attrs[0].value).err.Some? then ParseInt(attrs[0].value).err
    else
      var e := FirstMalformed(attrs[1..], names);
      assert SomeMalformed(attrs, names) ==> SomeMalformed(attrs[1..], names) by {
        if SomeMalformed(attrs, names) {
          var k :| 0 <= k < |attrs| && attrs[k].name.local in names && ParseInt(attrs[k].value).err.Some?;
          if k > 0 { assert attrs[1..][k - 1] == attrs[k]; }
        }
      }
      e
  }

  /** The value an attribute loop leaves in a field that the attribute `local` sets with
      ParseInt: the last such attribute's value, or the field's earlier value. */
  function Setting(attrs: seq<Attr>, local: string, previous: int64): int64
  {
    match LastAttr(attrs, local)
    case None => previous
    case Some(v) => ParseInt(v).value
  }

  /** Position of the first attribute whose local name is in `names` and whose value
      does not parse, or |attrs| when there is none: where an attribute loop stops. */
  function MalformedIndex(attrs: seq<Attr>, names: set<string>): (m: nat)
    ensures m <= |attrs|
    ensures m < |attrs| ==> attrs[m].name.local in names && ParseInt(attrs[m].value).err.Some?
    decreases |attrs|
  {
    if attrs == [] then 0
    else if attrs[0].name.local in names && ParseInt(attrs[0].value).err.Some? then 0
    else 1 + MalformedIndex(attrs[1..], names)
  }

  /** The attributes a loop that checks each value BEFORE storing it has stored: those
      ahead of the first malformed one. */
  function CheckedAttrs(attrs: seq<Attr>, names: set<string>): seq<Attr>
  {
    attrs[..MalformedIndex(attrs, names)]
  }

  /** The attributes a loop that stores each value BEFORE checking it has stored: all of
      them, or those up to and including the first malformed one. */
  function StoredAttrs(attrs: seq<Attr>, names: set<string>): seq<Attr>
  {
    var m := MalformedIndex(attrs, names);
    if m < |attrs| then attrs[..m + 1] else attrs
  }

  /** Without a malformed attribute the loop handles every attribute. */
  lemma {:induction false} MalformedIndexAll(attrs: seq<Attr>, names: set<string>)
    ensures MalformedIndex(attrs, names) == |attrs| <==> FirstMalformed(attrs, names).None?
    ensures MalformedIndex(attrs, names) < |attrs| ==>
              FirstMalformed(attrs, names) == ParseInt(attrs[MalformedIndex(attrs, names)].value).err
    decreases |attrs|
  {
    if attrs != [] {
      MalformedIndexAll(attrs[1..], names);
    }
  }

  /** The handled attributes, one attribute at a time. */
  lemma HandledAttrsCons(attrs: seq<Attr>, names: set<string>)
    requires attrs != []
    ensures var stop := attrs[0].name.local in names && ParseInt(attrs[0].value).err.Some?;
      && (stop ==> CheckedAttrs(attrs, names) == [] && StoredAttrs(attrs, names) == [attrs[0]])
      && (!stop ==> CheckedAttrs(attrs, names) == [attrs[0]] + CheckedAttrs(attrs[1..], names)
                    && StoredAttrs(attrs, names) == [attrs[0]] + StoredAttrs(attrs[1..], names))
  {
    var stop := attrs[0].name.local in names && ParseInt(attrs[0].value).err.Some?;
    if !stop {
      var m := MalformedIndex(attrs[1..], names);
      assert attrs[..m + 1] == [attrs[0]] + attrs[1..][..m];
      if m < |attrs[1..]| {
        assert attrs[..m + 2] == [attrs[0]] + attrs[1..][..m + 1];
      } else {
        assert attrs == [attrs[0]] + attrs[1..];
      }
    }
  }

  /** Setting over a one-attribute list. */
  lemma SettingOne(a: Attr, local: string, previous: int64)
    ensures Setting([a], local, previous) == if a.name.local == local then ParseInt(a.value).value else previous
  {
    assert [a][1..] == [];
  }

  /** Setting over a list that starts with a given attribute. */
  lemma SettingPrepend(a: Attr, rest: seq<Attr>, local: string, previous: int64)
    ensures Setting([a] + rest, local, previous)
            == Setting(rest, local, if a.name.local == local then ParseInt(a.value).value else previous)
  {
    SettingCons([a] + rest, local, previous);
    assert ([a] + rest)[1..] == rest;
  }

  /** Setting, one attribute at a time: the first attribute, when it is `local`, becomes
      the earlier value for the rest. */
  /** Two attribute lists read one after the other: the second starts from what the first
      left. */
  lemma SettingConcat(xs: seq<Attr>, ys: seq<Attr>, local: string, previous: int64)
    ensures Setting(xs + ys, local, previous) == Setting(ys, local, Setting(xs, local, previous))
  {
    LastAttrConcat(xs, ys, local);
  }

  lemma SettingCons(attrs: seq<Attr>, local: string, previous: int64)
    requires attrs != []
    ensures Setting(attrs, local, previous)
            == Setting(attrs[1..], local, if attrs[0].name.local == local then ParseInt(attrs[0].value).value else previous)
  {
  }
}
