/** The pieces of std::string and std::filesystem::path the core relies on, with the
    size_t arithmetic written out: `find_first_of` answers `npos` (2^64 - 1) when the
    character is absent, and `npos + 1` wraps to 0. Paths use '/' as the only separator. */
module Strings {
  import opened Common

  const SizeModulus: int := 0x1_0000_0000_0000_0000
  const Npos: int := SizeModulus - 1

  /** A std::string is always shorter than `npos`. */
  predicate Sized(s: string)
  {
    |s| < Npos
  }

  /** `std::string::find_first_of(c)`: the first position holding `c`, or `npos`. */
  function FindFirstOf(s: string, c: char): (r: int)
    requires Sized(s)
    ensures r == Npos || 0 <= r < |s|
    ensures r == Npos <==> c !in s
    ensures r != Npos ==> s[r] == c && c !in s[..r]
  {
    if |s| == 0 then Npos
    else if s[0] == c then 0
    else
      var rest := FindFirstOf(s[1..], c);
      assert s[1..][..(if rest == Npos then 0 else rest)] == s[1..1 + (if rest == Npos then 0 else rest)];
      if rest == Npos then Npos else 1 + rest
  }

  /** `s.substr(pos, count)`: throws out_of_range when `pos` is past the end, otherwise
      the at most `count` characters starting at `pos`. */
  function Substr(s: string, pos: int, count: int): (r: Option<string>)
    requires 0 <= pos < SizeModulus && 0 <= count < SizeModulus
    ensures r.Some? <==> pos <= |s|
    ensures r.Some? ==> |r.value| <= count && r.value <= s[pos..]
    ensures r.Some? && pos + count >= |s| ==> r.value == s[pos..]
  {
    if pos > |s| then None
    else if pos + count >= |s| then Some(s[pos..])
    else Some(s[pos..pos + count])
  }

  /** `+ 1` on a size_t. */
  function SizeSucc(v: int): (r: int)
    requires 0 <= v < SizeModulus
    ensures 0 <= r < SizeModulus
    ensures v == Npos ==> r == 0
  {
    (v + 1) % SizeModulus
  }

  /** The split performed by `substr(0, pos)` / `substr(pos + 1)` around the first `c`.
      Without a `c` both halves are the whole string. */
  function SplitAtFirst(s: string, c: char): (r: (string, string))
    requires Sized(s)
    ensures c in s ==> s == r.0 + [c] + r.1 && c !in r.0
    ensures c !in s ==> r == (s, s)
  {
    var pos := FindFirstOf(s, c);
    var head := Substr(s, 0, pos);
    var tail := Substr(s, SizeSucc(pos), Npos);
    if pos == Npos then
      (head.value, tail.value)
    else
      assert s == s[..pos] + [c] + s[pos + 1..];
      (head.value, tail.value)
  }

  /** Splitting a joined string at its separator gives back the two parts, provided
      the first part does not itself contain the separator. */
  lemma {:induction false} SplitAtFirstOfJoin(a: string, b: string, c: char)
    requires Sized(a + [c] + b) && c !in a
    ensures SplitAtFirst(a + [c] + b, c) == (a, b)
  {
    var s := a + [c] + b;
    assert s[..|a|] == a && s[|a|] == c;
    var pos := FindFirstOf(s, c);
    assert pos == |a|;
    assert s[|a| + 1..] == b;
  }

  /** `path.filename()`: everything after the last separator. */
  function Filename(p: string): (r: string)
    ensures '/' !in r
    ensures |r| <= |p| && r <= p[|p| - |r|..]
    ensures '/' !in p ==> r == p
  {
    if |p| == 0 then ""
    else if p[|p| - 1] == '/' then ""
    else
      var prefix := Filename(p[..|p| - 1]);
      assert p[..|p| - 1][|p| - 1 - |prefix|..] + [p[|p| - 1]] == p[|p| - 1 - |prefix|..];
      prefix + [p[|p| - 1]]
  }

  /** Position of the last '.' in a name, if any. */
  function LastDot(name: string): (r: Option<nat>)
    ensures r.Some? ==> r.value < |name| && name[r.value] == '.' && '.' !in name[r.value + 1..]
    ensures r.None? <==> '.' !in name
  {
    if |name| == 0 then None
    else if name[|name| - 1] == '.' then Some(|name| - 1)
    else
      var r := LastDot(name[..|name| - 1]);
      if r.Some? then
        assert name[r.value + 1..] == name[..|name| - 1][r.value + 1..] + [name[|name| - 1]];
        r
      else
        assert name == name[..|name| - 1] + [name[|name| - 1]];
        None
  }

  /** `path.extension()` of a file name: from the last '.' on, except that "." and ".."
      and names whose only '.' is the leading one have no extension. */
  function Extension(name: string): (r: string)
    ensures r == "" || (|r| <= |name| && r[0] == '.' && '.' !in r[1..] && name == name[..|name| - |r|] + r)
    ensures LastDot(name).Some? && LastDot(name).value > 0 && name != ".." ==> r == name[LastDot(name).value..]
    ensures LastDot(name).None? || LastDot(name).value == 0 || name == ".." ==> r == ""
  {
    if name == "." || name == ".." then ""
    else match LastDot(name)
      case None => ""
      case Some(i) => if i == 0 then "" else name[i..]
  }

  /** `path.stem()`: the file name without its extension. */
  function Stem(name: string): (r: string)
    ensures r + Extension(name) == name
  {
    name[..|name| - |Extension(name)|]
  }

  predicate IsDigit(c: char)
  {
    '0' <= c <= '9'
  }

  function DigitValue(c: char): (r: nat)
    requires IsDigit(c)
    ensures r < 10
  {
    c as int - '0' as int
  }

  /** The value of a string of decimal digits. */
  function DecimalValue(s: string): nat
    requires forall i :: 0 <= i < |s| ==> IsDigit(s[i])
  {
    if |s| == 0 then 0
    else DecimalValue(s[..|s| - 1]) * 10 + DigitValue(s[|s| - 1])
  }

  /** `std::to_string` of a non-negative value: its decimal spelling, without leading
      zeros. */
  function ToDecimal(v: nat): (r: string)
    ensures |r| > 0 && forall i :: 0 <= i < |r| ==> IsDigit(r[i])
    ensures |r| > 1 ==> r[0] != '0'
    decreases v
  {
    if v < 10 then [(v + '0' as int) as char] else ToDecimal(v / 10) + [(v % 10 + '0' as int) as char]
  }

  lemma {:induction false} DecimalValueOfToDecimal(v: nat)
    ensures DecimalValue(ToDecimal(v)) == v
    decreases v
  {
    if v >= 10 {
      DecimalValueOfToDecimal(v / 10);
      var s := ToDecimal(v);
      assert s[..|s| - 1] == ToDecimal(v / 10);
    }
  }

  function LowerChar(c: char): char
  {
    if 'A' <= c <= 'Z' then (c as int - 'A' as int + 'a' as int) as char else c
  }

  /** ASCII lower-casing, character by character. */
  function LowerCase(s: string): (r: string)
    ensures |r| == |s|
    ensures forall i :: 0 <= i < |s| ==> r[i] == LowerChar(s[i])
  {
    seq(|s|, i requires 0 <= i < |s| => LowerChar(s[i]))
  }
}
