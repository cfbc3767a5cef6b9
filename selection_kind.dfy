/**
 * The generated `SelectionKind` enum of package `document`: three named
 * constants, a `String` method that looks names up in a constant map and falls
 * back to `SelectionKind(<decimal>)`, and `ParseSelectionKind`, the inverse
 * lookup that reports an error for every other string.
 */
module SelectionKindEnum {
  import opened Wrappers

  /** The enum's underlying Go type is a plain `int`; every int is a SelectionKind. */
  type SelectionKind = int

  const SelectionKindField: SelectionKind := 0
  const SelectionKindInlineFragment: SelectionKind := 1
  const SelectionKindFragmentSpread: SelectionKind := 2

  /** All three names packed into one constant; each name is a slice of it. */
  const SelectionKindName: string := "FieldInlineFragmentFragmentSpread"

  /** The lookup table used by `String` (`_SelectionKindMap`). */
  const NameOf: map<SelectionKind, string> :=
    map[0 := SelectionKindName[0..5], 1 := SelectionKindName[5..19], 2 := SelectionKindName[19..33]]

  /** The lookup table used by `ParseSelectionKind` (`_SelectionKindValue`). */
  const ValueOf: map<string, SelectionKind> :=
    map[SelectionKindName[0..5] := 0, SelectionKindName[5..19] := 1, SelectionKindName[19..33] := 2]

  /** The outcome of `ParseSelectionKind`: Go's `(SelectionKind, error)` pair. */
  datatype ParseResult = ParseResult(kind: SelectionKind, err: Option<string>)

  /** The three names are the slices [0:5], [5:19] and [19:33] of the packed constant. */
  lemma NameSlices()
    ensures |SelectionKindName| == 33
    ensures SelectionKindName[0..5] == "Field"
    ensures SelectionKindName[5..19] == "InlineFragment"
    ensures SelectionKindName[19..33] == "FragmentSpread"
  {
    assert SelectionKindName[5] == 'I' && SelectionKindName[6] == 'n' && SelectionKindName[7] == 'l' && SelectionKindName[8] == 'i' && SelectionKindName[9] == 'n' && SelectionKindName[10] == 'e' && SelectionKindName[11] == 'F' && SelectionKindName[12] == 'r' && SelectionKindName[13] == 'a' && SelectionKindName[14] == 'g' && SelectionKindName[15] == 'm' && SelectionKindName[16] == 'e' && SelectionKindName[17] == 'n' && SelectionKindName[18] == 't';
    var inline := SelectionKindName[5..19];
    assert forall k | 0 <= k < 14 :: inline[k] == SelectionKindName[5 + k];
  }

  function DigitChar(d: nat): (c: char)
    requires d < 10
    ensures '0' <= c <= '9' && c as int - '0' as int == d
  {
    ['0', '1', '2', '3', '4', '5', '6', '7', '8', '9'][d]
  }

  /** The decimal digits of a natural number, most significant first, as `%d` prints them. */
  function NatDecimal(n: nat): (s: string)
    ensures 1 <= |s|
    ensures forall k :: 0 <= k < |s| ==> '0' <= s[k] <= '9'
    ensures n < 10 <==> |s| == 1
    ensures 1 < |s| ==> s[0] != '0'
  {
    if n < 10 then [DigitChar(n)] else NatDecimal(n / 10) + [DigitChar(n % 10)]
  }

  /** `%d` of an int: a leading `-` for negative values, then the digits of the magnitude. */
  function Decimal(x: int): (s: string)
    ensures 1 <= |s|
    ensures x < 0 <==> s[0] == '-'
  {
    if x < 0 then "-" + NatDecimal(-x) else NatDecimal(x)
  }

  /** Different naturals print differently. */
  lemma {:induction false} NatDecimalInjective(m: nat, n: nat)
    requires NatDecimal(m) == NatDecimal(n)
    ensures m == n
  {
    var s := NatDecimal(m);
    if m < 10 || n < 10 {
      assert |s| == 1;
      assert s[0] == DigitChar(m) && s[0] == DigitChar(n);
    } else {
      var sm, sn := NatDecimal(m / 10), NatDecimal(n / 10);
      assert s == sm + [DigitChar(m % 10)];
      assert s == sn + [DigitChar(n % 10)];
      assert sm == s[..|s| - 1] == sn;
      NatDecimalInjective(m / 10, n / 10);
      assert DigitChar(m % 10) == s[|s| - 1] == DigitChar(n % 10);
    }
  }

  /** Different ints print differently. */
  lemma DecimalInjective(x: int, y: int)
    requires Decimal(x) == Decimal(y)
    ensures x == y
  {
    if x < 0 {
      assert Decimal(x)[1..] == NatDecimal(-x) && Decimal(y)[1..] == NatDecimal(-y);
      NatDecimalInjective(-x, -y);
    } else {
      NatDecimalInjective(x, y);
    }
  }

  /** `String` implements the Stringer interface: the name from the map, or `SelectionKind(x)`. */
  function String(x: SelectionKind): (s: string)
    ensures x == SelectionKindField ==> s == "Field"
    ensures x == SelectionKindInlineFragment ==> s == "InlineFragment"
    ensures x == SelectionKindFragmentSpread ==> s == "FragmentSpread"
    ensures x !in NameOf ==> s == "SelectionKind(" + Decimal(x) + ")"
  {
    NameSlices();
    if x in NameOf then NameOf[x] else "SelectionKind(" + Decimal(x) + ")"
  }

  /** `ParseSelectionKind`: the kind named by the map, or kind 0 together with an error. */
  function ParseSelectionKind(name: string): (r: ParseResult)
    ensures name == "Field" ==> r == ParseResult(SelectionKindField, None)
    ensures name == "InlineFragment" ==> r == ParseResult(SelectionKindInlineFragment, None)
    ensures name == "FragmentSpread" ==> r == ParseResult(SelectionKindFragmentSpread, None)
    ensures name !in {"Field", "InlineFragment", "FragmentSpread"} ==>
      r == ParseResult(0, Some(name + " is not a valid SelectionKind"))
  {
    NameSlices();
    if name in ValueOf then ParseResult(ValueOf[name], None)
    else ParseResult(0, Some(name + " is not a valid SelectionKind"))
  }

  /** Every named kind survives printing and parsing back. */
  lemma RoundTrip(k: SelectionKind)
    requires k in NameOf
    ensures ParseSelectionKind(String(k)) == ParseResult(k, None)
  {
    NameSlices();
  }

  /** Whatever parses without error prints back to the very string it was parsed from. */
  lemma ReverseRoundTrip(s: string)
    requires ParseSelectionKind(s).err.None?
    ensures ParseSelectionKind(s).kind in NameOf
    ensures String(ParseSelectionKind(s).kind) == s
  {
    NameSlices();
  }

  /** The fallback text of an unnamed kind never parses: it is longer than every name. */
  lemma FallbackNeverParses(x: SelectionKind)
    requires x !in NameOf
    ensures ParseSelectionKind(String(x)).err == Some(String(x) + " is not a valid SelectionKind")
  {
    NameSlices();
    assert |String(x)| >= 16;
  }

  /** A failed parse yields the same kind as a successful parse of "Field"; only the error differs. */
  lemma ErrorKindIsField(s: string)
    requires ParseSelectionKind(s).err.Some?
    ensures ParseSelectionKind(s).kind == SelectionKindField == ParseSelectionKind("Field").kind
    ensures ParseSelectionKind("Field").err.None?
  {
  }

  /** `String` tells every pair of kinds apart, named or not. */
  lemma StringInjective(x: SelectionKind, y: SelectionKind)
    requires String(x) == String(y)
    ensures x == y
  {
    NameSlices();
    if x in NameOf && y in NameOf {
    } else if x in NameOf || y in NameOf {
    } else {
      var sx, sy := String(x), String(y);
      assert sx[14..|sx| - 1] == Decimal(x);
      assert sy[14..|sy| - 1] == Decimal(y);
      DecimalInjective(x, y);
    }
  }
}
