/**
 * What the extraction script reads off a sample's file name: the family
 * label from the text before the first '-', and the numeric sample id from
 * the second '-'-separated field of the text before the first '.'.
 */
module Filenames {
  import opened Wrappers

  /** `s.split(sep)[0]`: the text before the first sep, or all of s when there is none. */
  function BeforeFirst(s: string, sep: char): (r: string)
    ensures r <= s && sep !in r
    ensures |r| < |s| ==> s[|r|] == sep
    decreases |s|
  {
    if s == [] || s[0] == sep then [] else [s[0]] + BeforeFirst(s[1..], sep)
  }

  /**
   * `s.split(sep)[1]`: the text between the first and the second sep (or the
   * end), or None where the split has a single field and Python raises IndexError.
   */
  function SecondField(s: string, sep: char): (r: Option<string>)
    ensures r.None? <==> sep !in s
  {
    var head := BeforeFirst(s, sep);
    if |head| == |s| then
      assert head == s;
      None
    else
      assert s[..|head|] == head;
      Some(BeforeFirst(s[|head| + 1..], sep))
  }

  /** The file name up to its first '-', the token matched against the family names. */
  function FamilyPrefix(name: string): (r: string)
    ensures r <= name && '-' !in r
    ensures |r| < |name| ==> name[|r|] == '-'
  {
    BeforeFirst(name, '-')
  }

  /** The second '-'-separated field of the name's part before its first '.', stored as the sample id. */
  function IdField(name: string): (r: Option<string>)
    ensures r.None? <==> '-' !in BeforeFirst(name, '.')
    ensures r.Some? ==> '-' !in r.value
  {
    SecondField(BeforeFirst(name, '.'), '-')
  }

  predicate IsDigit(c: char)
  {
    '0' <= c <= '9'
  }

  predicate AllDigits(s: string)
  {
    forall i :: 0 <= i < |s| ==> IsDigit(s[i])
  }

  /** The value of a string of decimal digits. */
  function DecimalValue(s: string): nat
    requires AllDigits(s)
    decreases |s|
  {
    if s == [] then 0
    else DecimalValue(s[..|s| - 1]) * 10 + (s[|s| - 1] as int - '0' as int)
  }

  /** The number a non-empty string of digits denotes; None where the conversion raises ValueError. */
  function ParseId(field: string): (r: Option<nat>)
    ensures r.Some? <==> |field| > 0 && AllDigits(field)
  {
    if |field| > 0 && AllDigits(field) then Some(DecimalValue(field)) else None
  }

  /** The id written into score column 0, or None where the script raises. */
  function SampleId(name: string): (r: Option<nat>)
    ensures r.Some? <==> IdField(name).Some? && |IdField(name).value| > 0 && AllDigits(IdField(name).value)
  {
    match IdField(name)
    case None => None
    case Some(field) => ParseId(field)
  }

  /** The closed table of family names; a name's label is its position plus one. */
  const Families: seq<string> :=
    ["benign", "dridex", "locky", "teslacrypt", "vawtrak",
     "zeus", "darkcomet", "cybergate", "xtreme", "ctblocker"]

  /**
   * The label the if/elif chain assigns to a prefix, 0 where no branch
   * matches: a prefix in the table gets its position plus one, any other 0.
   */
  function LabelOf(prefix: string): (r: int)
    ensures 0 <= r <= |Families|
    ensures r == 0 <==> prefix !in Families
    ensures r != 0 ==> Families[r - 1] == prefix
  {
    if prefix == "benign" then 1
    else if prefix == "dridex" then 2
    else if prefix == "locky" then 3
    else if prefix == "teslacrypt" then 4
    else if prefix == "vawtrak" then 5
    else if prefix == "zeus" then 6
    else if prefix == "darkcomet" then 7
    else if prefix == "cybergate" then 8
    else if prefix == "xtreme" then 9
    else if prefix == "ctblocker" then 10
    else 0
  }

  /** Every family in the table gets its own label, its position plus one. */
  lemma LabelOfTable(i: nat)
    requires i < |Families|
    ensures LabelOf(Families[i]) == i + 1
  {
    assert Families[LabelOf(Families[i]) - 1] == Families[i];
  }

  /** Splitting text that starts with a sep-free part keeps that part whole. */
  lemma {:induction false} BeforeFirstAppend(x: string, y: string, sep: char)
    requires sep !in x
    ensures BeforeFirst(x + y, sep) == x + BeforeFirst(y, sep)
    decreases |x|
  {
    if x != [] {
      var t := x[1..];
      assert x == [x[0]] + t && x + y == [x[0]] + (t + y);
      assert x[0] in x;
      BeforeFirstAppend(t, y, sep);
      BeforeFirstCons(x[0], t + y, sep);
    } else {
      assert x + y == y;
    }
  }

  /** A character other than sep is kept. */
  lemma BeforeFirstCons(c: char, s: string, sep: char)
    requires c != sep
    ensures BeforeFirst([c] + s, sep) == [c] + BeforeFirst(s, sep)
  {
    assert ([c] + s)[1..] == s;
  }

  /** Splitting `a + sep + b` where a holds no sep: field 0 is a, field 1 is b up to its first sep. */
  lemma SplitAt(a: string, b: string, sep: char)
    requires sep !in a
    ensures BeforeFirst(a + [sep] + b, sep) == a
    ensures SecondField(a + [sep] + b, sep) == Some(BeforeFirst(b, sep))
  {
    var s := a + [sep] + b;
    assert s == a + ([sep] + b);
    BeforeFirstAppend(a, [sep] + b, sep);
    assert s[|a| + 1..] == b;
  }

  /** Digits contain neither separator. */
  lemma DigitsHaveNoSeparator(digits: string)
    requires AllDigits(digits)
    ensures '.' !in digits && '-' !in digits
  {
    forall i | 0 <= i < |digits| ensures digits[i] != '.' && digits[i] != '-' {
      assert IsDigit(digits[i]);
    }
  }

  /** What follows the digits contributes nothing to the id field. */
  lemma RestEndsField(rest: string)
    requires rest == [] || rest[0] == '.' || rest[0] == '-'
    ensures BeforeFirst(BeforeFirst(rest, '.'), '-') == []
  {
  }

  /**
   * A name of the form `<family>-<digits><rest>`, where rest is empty or
   * starts at an extension or another '-', yields that family prefix and the
   * value of those digits as its id.
   */
  lemma ConventionalName(family: string, digits: string, rest: string)
    requires '-' !in family && '.' !in family
    requires |digits| > 0 && AllDigits(digits)
    requires rest == [] || rest[0] == '.' || rest[0] == '-'
    ensures FamilyPrefix(family + ['-'] + digits + rest) == family
    ensures SampleId(family + ['-'] + digits + rest) == Some(DecimalValue(digits))
  {
    var name := family + ['-'] + digits + rest;
    assert name == family + ['-'] + (digits + rest);
    SplitAt(family, digits + rest, '-');
    ConventionalIdField(family, digits, rest);
  }

  /** The id field of such a name is its digits. */
  lemma ConventionalIdField(family: string, digits: string, rest: string)
    requires '-' !in family && '.' !in family
    requires |digits| > 0 && AllDigits(digits)
    requires rest == [] || rest[0] == '.' || rest[0] == '-'
    ensures IdField(family + ['-'] + digits + rest) == Some(digits)
  {
    var name := family + ['-'] + digits + rest;
    DigitsHaveNoSeparator(digits);
    var head := family + ['-'] + digits;
    var tail := BeforeFirst(rest, '.');
    assert '.' !in head;
    assert name == head + rest;
    BeforeFirstAppend(head, rest, '.');
    assert head + tail == family + ['-'] + (digits + tail);
    SplitAt(family, digits + tail, '-');
    BeforeFirstAppend(digits, tail, '-');
    RestEndsField(rest);
    assert BeforeFirst(digits + tail, '-') == digits;
  }
}
