/** Keys put together from parts with colons in between. */
module ColonKeys {
  /** The first colon separates what it separates. */
  lemma {:induction false} SplitAtFirst(a: string, b: string, c: string, d: string)
    requires ':' !in a && ':' !in c && a + ":" + b == c + ":" + d
    ensures a == c && b == d
  {
    var s, t := a + ":" + b, c + ":" + d;
    assert s[0] == (if a == "" then ':' else a[0]) && t[0] == (if c == "" then ':' else c[0]);
    if a == "" {
      assert b == s[1..] && d == t[1..];
    } else {
      assert s[1..] == a[1..] + ":" + b && t[1..] == c[1..] + ":" + d;
      SplitAtFirst(a[1..], b, c[1..], d);
      assert a == [a[0]] + a[1..] && c == [c[0]] + c[1..];
    }
  }

  /** And so does the last. */
  lemma {:induction false} SplitAtLast(a: string, b: string, c: string, d: string)
    requires ':' !in b && ':' !in d && a + ":" + b == c + ":" + d
    ensures a == c && b == d
    decreases |b|
  {
    var s, t := a + ":" + b, c + ":" + d;
    var n := |s| - 1;
    assert s[n] == (if b == "" then ':' else b[|b| - 1]) && t[n] == (if d == "" then ':' else d[|d| - 1]);
    if b == "" {
      assert a == s[..n] && c == t[..n];
    } else {
      var b', d' := b[..|b| - 1], d[..|d| - 1];
      assert s[..n] == a + ":" + b' && t[..n] == c + ":" + d';
      SplitAtLast(a, b', c, d');
      assert b == b' + [s[n]] && d == d' + [t[n]];
    }
  }
}
