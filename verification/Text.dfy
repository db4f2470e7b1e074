/** The string operations both the liveness override and the header scan rely on. */
module Text {

  /** The Unicode white space that `str::trim` removes. */
  predicate White(c: char) {
    var n := c as int;
    0x09 <= n <= 0x0D || n == 0x20 || n == 0x85 || n == 0xA0 || n == 0x1680 || 0x2000 <= n <= 0x200A
    || n == 0x2028 || n == 0x2029 || n == 0x202F || n == 0x205F || n == 0x3000
  }

  predicate AllWhite(s: string) { forall i :: 0 <= i < |s| ==> White(s[i]) }

  function Trim(s: string): string {
    if s == [] then s
    else if White(s[0]) then Trim(s[1..])
    else if White(s[|s| - 1]) then Trim(s[..|s| - 1])
    else s
  }

  /** Neither end is white space. */
  predicate Tight(s: string) { s != [] && !White(s[0]) && !White(s[|s| - 1]) }

  /** Trimming removes exactly the white space around a tight core. */
  lemma {:induction false} TrimFindsTheCore(left: string, core: string, right: string)
    requires AllWhite(left) && Tight(core) && AllWhite(right)
    ensures Trim(left + core + right) == core
    decreases |left| + |right|
  {
    var s := left + core + right;
    if left != [] {
      TrimFindsTheCore(left[1..], core, right);
      assert s[1..] == left[1..] + core + right;
    } else if right != [] {
      TrimFindsTheCore(left, core, right[..|right| - 1]);
      assert s[..|s| - 1] == left + core + right[..|right| - 1];
    } else {
      assert s == core;
    }
  }
}
