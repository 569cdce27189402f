/** Terminal cells per character, and which characters count as white space. */
module DisplayWidth {
  predicate IsZeroWidth(c: char) {
    var n := c as int;
    || n == 0x200d || n == 0xfe0e || n == 0xfe0f
    || 0x300 <= n <= 0x36f || 0x1ab0 <= n <= 0x1aff || 0x20d0 <= n <= 0x20ff || 0xfe20 <= n <= 0xfe2f
  }

  predicate IsWide(c: char) {
    var n := c as int;
    || 0x1100 <= n <= 0x115f || 0x2329 <= n <= 0x232a || 0x2e80 <= n <= 0xa4cf || 0xac00 <= n <= 0xd7a3
    || 0xf900 <= n <= 0xfaff || 0xfe10 <= n <= 0xfe19 || 0xfe30 <= n <= 0xfe6f || 0xff00 <= n <= 0xff60
    || 0xffe0 <= n <= 0xffe6 || 0x1f300 <= n <= 0x1faff
  }

  function CharWidth(c: char): (cells: nat)
    ensures cells <= 2
  {
    if IsZeroWidth(c) then 0 else if IsWide(c) then 2 else 1
  }

  function Width(text: string): nat {
    if text == "" then 0 else Width(text[..|text| - 1]) + CharWidth(text[|text| - 1])
  }

  lemma WidthPush(text: string, c: char)
    ensures Width(text + [c]) == Width(text) + CharWidth(c)
  {
    assert (text + [c])[..|text|] == text;
  }

  lemma {:induction false} WidthConcat(a: string, b: string)
    ensures Width(a + b) == Width(a) + Width(b)
    decreases |b|
  {
    if b == "" {
      assert a + b == a;
    } else {
      var (most, last) := (b[..|b| - 1], b[|b| - 1]);
      assert b == most + [last] && a + b == a + most + [last];
      WidthConcat(a, most);
      WidthPush(a + most, last);
    }
  }

  /** The characters with the Unicode property White_Space. */
  predicate IsWhite(c: char) {
    var n := c as int;
    || 0x09 <= n <= 0x0d || n == 0x20 || n == 0x85 || n == 0xa0 || n == 0x1680 || 0x2000 <= n <= 0x200a
    || n == 0x2028 || n == 0x2029 || n == 0x202f || n == 0x205f || n == 0x3000
  }
}
