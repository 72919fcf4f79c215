/** Storage object names (src/utils/storageNaming.js): the candidates tried one
    after the other must never repeat. */
module Naming {
  import opened Common

  function Digit(d: nat): char
    requires d < 10
  {
    ['0', '1', '2', '3', '4', '5', '6', '7', '8', '9'][d]
  }

  // String(n) of a number.
  function Decimal(n: nat): (s: string)
    ensures s != []
  {
    if n < 10 then [Digit(n)] else Decimal(n / 10) + [Digit(n % 10)]
  }

  lemma DigitInjective(a: nat, b: nat)
    requires a < 10 && b < 10 && Digit(a) == Digit(b)
    ensures a == b
  {
  }

  lemma {:induction false} DecimalInjective(a: nat, b: nat)
    requires Decimal(a) == Decimal(b)
    ensures a == b
  {
    var s, t := Decimal(a), Decimal(b);
    assert s[|s| - 1] == Digit(a % 10) && t[|t| - 1] == Digit(b % 10);
    DigitInjective(a % 10, b % 10);
    if a >= 10 && b >= 10 {
      assert Decimal(a / 10) == s[..|s| - 1] == t[..|t| - 1] == Decimal(b / 10);
      DecimalInjective(a / 10, b / 10);
    }
  }

  // The number that digits stand for.
  function Value(s: string): int {
    if s == "" then 0 else 10 * Value(s[..|s| - 1]) + (s[|s| - 1] as int - '0' as int)
  }

  // The printed number is read back, and has digits only and no leading zero.
  lemma {:induction false} DecimalRoundTrip(n: nat)
    ensures Value(Decimal(n)) == n
    ensures forall k :: 0 <= k < |Decimal(n)| ==> '0' <= Decimal(n)[k] <= '9'
    ensures n > 0 ==> Decimal(n)[0] != '0'
  {
    if n < 10 {
      assert Value([]) == 0 && Decimal(n)[..0] == [];
    } else {
      DecimalRoundTrip(n / 10);
      assert Decimal(n)[..|Decimal(n)| - 1] == Decimal(n / 10);
    }
  }

  // passport.pdf, passport_v2.pdf, passport_v3.pdf, ...
  function StandardFileName(baseName: string, version: nat, extension: string): string
    requires 1 <= version
  {
    if version == 1 then baseName + extension else baseName + "_v" + Decimal(version) + extension
  }

  // The last index of a dot, or -1.
  function LastDot(s: string): (r: int)
    ensures -1 <= r < |s|
    ensures r >= 0 ==> s[r] == '.'
    ensures forall k :: r < k < |s| ==> s[k] != '.'
  {
    if s == [] then -1
    else if s[|s| - 1] == '.' then |s| - 1
    else LastDot(s[..|s| - 1])
  }

  // scan.pdf, scan_2.pdf, scan_3.pdf, ...
  function WithNumericSuffix(fileName: string, attempt: nat): string {
    if attempt <= 1 then fileName
    else
      var dot := LastDot(fileName);
      if dot > 0 then fileName[..dot] + "_" + Decimal(attempt) + fileName[dot..]
      else fileName + "_" + Decimal(attempt)
  }

  // What is between a common beginning and a common end decides.
  lemma Between(head: string, a: string, b: string, tail: string)
    ensures head + a + tail == head + b + tail <==> a == b
  {
    var s, t := head + a + tail, head + b + tail;
    assert s[|head|..|s| - |tail|] == a;
    assert t[|head|..|t| - |tail|] == b;
  }

  // The middle part of a name: nothing for attempt 1, else a mark and the number.
  function Middle(mark: string, n: nat): string {
    if n == 1 then [] else mark + Decimal(n)
  }

  lemma MiddleInjective(mark: string, v: nat, w: nat)
    requires Middle(mark, v) == Middle(mark, w)
    ensures v == w
  {
    if v != 1 && w != 1 {
      assert Middle(mark, v)[|mark|..] == Decimal(v);
      assert Middle(mark, w)[|mark|..] == Decimal(w);
      DecimalInjective(v, w);
    }
  }

  lemma StandardNamesDistinct(baseName: string, extension: string, v: nat, w: nat)
    requires 1 <= v && 1 <= w && v != w
    ensures StandardFileName(baseName, v, extension) != StandardFileName(baseName, w, extension)
  {
    StandardParts(baseName, extension, v);
    StandardParts(baseName, extension, w);
    Between(baseName, Middle("_v", v), Middle("_v", w), extension);
    if Middle("_v", v) == Middle("_v", w) { MiddleInjective("_v", v, w); }
  }

  lemma StandardParts(baseName: string, extension: string, v: nat)
    requires 1 <= v
    ensures StandardFileName(baseName, v, extension) == baseName + Middle("_v", v) + extension
  {
    assert baseName + "_v" + Decimal(v) == baseName + ("_v" + Decimal(v));
    assert baseName + [] == baseName;
  }

  lemma SuffixedNamesDistinct(fileName: string, v: nat, w: nat)
    requires 1 <= v && 1 <= w && v != w
    ensures WithNumericSuffix(fileName, v) != WithNumericSuffix(fileName, w)
  {
    var cut := Cut(fileName);
    SuffixedParts(fileName, v);
    SuffixedParts(fileName, w);
    Between(fileName[..cut], Middle("_", v), Middle("_", w), fileName[cut..]);
    if Middle("_", v) == Middle("_", w) { MiddleInjective("_", v, w); }
  }

  // Where the suffix goes: before the extension, if there is one.
  function Cut(fileName: string): (r: nat)
    ensures r <= |fileName|
  {
    if LastDot(fileName) > 0 then LastDot(fileName) else |fileName|
  }

  lemma SuffixedParts(fileName: string, v: nat)
    requires 1 <= v
    ensures WithNumericSuffix(fileName, v) == fileName[..Cut(fileName)] + Middle("_", v) + fileName[Cut(fileName)..]
  {
    var cut := Cut(fileName);
    var head, tail := fileName[..cut], fileName[cut..];
    assert head + [] + tail == fileName;
    assert head + "_" + Decimal(v) + tail == head + ("_" + Decimal(v)) + tail;
    if LastDot(fileName) <= 0 { assert tail == [] && head == fileName; }
  }
}
