/** The text writer the tree dumps write to, one line at a time. */
module Writers {

  /** `n` spaces. */
  function Spaces(n: nat): (s: string)
    ensures |s| == n && forall i :: 0 <= i < n ==> s[i] == ' '
  {
    seq(n, _ => ' ')
  }

  /** Appending nothing leaves a sequence unchanged. */
  lemma AppendNothing<T>(a: seq<T>)
    ensures a + [] == a
  {
  }

  /** Nothing, then `a`, is `a`. */
  lemma EmptyThen<T>(a: seq<T>)
    ensures [] + a == a
  {
  }

  /** Concatenation is associative: the lines written in two calls are the lines of both. */
  lemma AppendAssoc<T>(a: seq<T>, b: seq<T>, c: seq<T>)
    ensures (a + b) + c == a + (b + c)
  {
  }

  /** A sequence that agrees with `l` and then ends in `x` is `l + [x]`. */
  lemma SnocEqual<T>(r: seq<T>, l: seq<T>, x: T)
    requires |r| == |l| + 1 && r[|l|] == x
    requires forall k :: 0 <= k < |l| ==> r[k] == l[k]
    ensures r == l + [x]
  {
  }

  /** A writer that only ever appends whole lines. */
  class LineWriter {
    var lines: seq<string>

    constructor ()
      ensures lines == []
    {
      lines := [];
    }

    method WriteLine(line: string)
      modifies this
      ensures lines == old(lines) + [line]
    {
      lines := lines + [line];
    }
  }
}
