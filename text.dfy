/** Splitting text at the first occurrence of a delimiter character. */
module Text {

  /**
   * The text before the first `c` in `s` and the remainder, which is empty
   * or starts with that `c`.
   */
  function CharsBefore(s: string, c: char): (r: (string, string))
    ensures r.0 + r.1 == s
    ensures c !in r.0
    ensures r.1 == [] || r.1[0] == c
  {
    if s == [] || s[0] == c then ([], s)
    else
      var (w, rest) := CharsBefore(s[1..], c);
      ([s[0]] + w, rest)
  }

  /** A word free of `c`, followed by nothing or by `c`, is split off exactly. */
  lemma {:induction false} CharsBeforeConcat(w: string, rest: string, c: char)
    requires c !in w
    requires rest == [] || rest[0] == c
    ensures CharsBefore(w + rest, c) == (w, rest)
  {
    if w == [] {
      assert w + rest == rest;
    } else {
      assert (w + rest)[1..] == w[1..] + rest;
      CharsBeforeConcat(w[1..], rest, c);
      assert [w[0]] + w[1..] == w;
    }
  }

  /** Regrouping a left-nested concatenation of five pieces to the right. */
  lemma Regroup(a: string, b: string, c: string, d: string, e: string)
    ensures a + b + c + d + e == a + (b + (c + (d + e)))
    ensures (a + (b + (c + (d + e))))[|a|..] == b + (c + (d + e))
  {
  }
}
