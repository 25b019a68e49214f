/** Types and small text functions that the other modules share. */
module Common {
  datatype Option<+T> = None | Some(value: T)

  const TWO32: nat := 0x1_0000_0000

  type byte = x: int | 0 <= x < 0x100
  type uint16 = x: int | 0 <= x < 0x1_0000
  type uint32 = x: int | 0 <= x < 0x1_0000_0000

  // A transfer or asset key: (modelId << 8) | kind.
  type Key = x: int | 0 <= x < 0x100_0000_0000

  function KeyOf(modelId: uint32, kind: byte): Key { modelId * 0x100 + kind }

  function ModelOf(k: Key): uint32 { k / 0x100 }

  function KindOf(k: Key): byte { k % 0x100 }

  lemma KeyUnpacks(modelId: uint32, kind: byte)
    ensures ModelOf(KeyOf(modelId, kind)) == modelId && KindOf(KeyOf(modelId, kind)) == kind
  {
  }

  function Min(a: int, b: int): int { if a < b then a else b }

  function Max(a: int, b: int): int { if a < b then b else a }

  function LowerChar(c: char): char {
    if 'A' <= c <= 'Z' then (c as int + 32) as char else c
  }

  // The C string held by s: everything before the first NUL.
  function CString(s: string): string {
    if s == [] || s[0] == '\0' then [] else [s[0]] + CString(s[1..])
  }

  function Lower(s: string): string {
    seq(|s|, i requires 0 <= i < |s| => LowerChar(s[i]))
  }

  // _stricmp(a.c_str(), b.c_str()) == 0
  predicate SameIgnoringCase(a: string, b: string) {
    Lower(CString(a)) == Lower(CString(b))
  }

  predicate IsHex(s: string) { forall c :: c in s ==> IsDigit(c) || 'a' <= c <= 'f' }

  lemma {:induction false} CStringStops(a: string, b: string)
    requires '\0' !in a
    ensures CString(a) == a && CString(a + ['\0'] + b) == a
  {
    if a != [] {
      CStringStops(a[1..], b);
      assert (a + ['\0'] + b)[1..] == a[1..] + ['\0'] + b;
    }
  }

  lemma LowerHex(s: string)
    requires IsHex(s)
    ensures Lower(s) == s
  {
    forall i | 0 <= i < |s|
      ensures Lower(s)[i] == s[i]
    {
      assert s[i] in s;
    }
  }

  /** Digests as the client writes them compare as equal exactly when they are, and one from a fixed-size
      field compares by what comes before its first NUL. */
  lemma SameDigestIff(a: string, b: string, rest: string)
    requires IsHex(a) && IsHex(b)
    ensures SameIgnoringCase(a, b) <==> a == b
    ensures SameIgnoringCase(a, b + ['\0'] + rest) <==> a == b
  {
    CStringStops(a, rest);
    CStringStops(b, rest);
    LowerHex(a);
    LowerHex(b);
  }

  /** The case of letters does not matter. */
  lemma CaseDoesNotMatter(a: string, b: string)
    requires '\0' !in a && '\0' !in b && |a| == |b|
    requires forall i | 0 <= i < |a| :: a[i] == b[i] || ('A' <= a[i] <= 'Z' && b[i] as int == a[i] as int + 32)
    ensures SameIgnoringCase(a, b)
  {
    CStringStops(a, []);
    CStringStops(b, []);
    assert Lower(a) == Lower(b);
  }

  // std::to_string of an unsigned number.
  function Decimal(n: nat): string {
    if n < 10 then [Digit(n)] else Decimal(n / 10) + [Digit(n % 10)]
  }

  function Digit(d: nat): char
    requires d < 10
  {
    ('0' as int + d) as char
  }

  predicate IsDigit(c: char) { '0' <= c <= '9' }

  function DigitsValue(s: string): nat
    requires forall c :: c in s ==> IsDigit(c)
  {
    if s == [] then 0 else
      assert IsDigit(s[|s| - 1]);
      DigitsValue(s[..|s| - 1]) * 10 + (s[|s| - 1] as int - '0' as int)
  }

  lemma {:induction false} DecimalReadsBack(n: nat)
    ensures forall c :: c in Decimal(n) ==> IsDigit(c)
    ensures Decimal(n) != [] && DigitsValue(Decimal(n)) == n
  {
    if n >= 10 {
      DecimalReadsBack(n / 10);
      var s := Decimal(n);
      assert s[..|s| - 1] == Decimal(n / 10);
    } else {
      assert Decimal(n)[..0] == [];
    }
  }

  lemma DecimalInjective(m: nat, n: nat)
    requires Decimal(m) == Decimal(n)
    ensures m == n
  {
    DecimalReadsBack(m);
    DecimalReadsBack(n);
  }

  lemma SliceOfSlice<T>(s: seq<T>, a: nat, b: nat, c: nat, d: nat)
    requires a <= b <= |s| && c <= d <= b - a
    ensures s[a..b][c..d] == s[a + c..a + d]
  {
    forall i | 0 <= i < d - c
      ensures s[a..b][c..d][i] == s[a + c..a + d][i]
    {
      assert s[a..b][c..d][i] == s[a..b][c + i];
      assert s[a..b][c + i] == s[a + c + i];
    }
    assert |s[a..b][c..d]| == |s[a + c..a + d]|;
  }
}
