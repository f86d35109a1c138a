/** Source texts, spans of character positions and locations in a text. */
module Text {

  import opened Wrappers
  import opened Strings

  /** A program text and the name of the file it came from ("" when none). */
  datatype SourceText = SourceText(text: string, fileName: string)

  /** `SourceText.From(text)`: a text with the default, empty file name. */
  function FromText(text: string): (r: SourceText)
    ensures r.text == text && r.fileName == ""
  {
    SourceText(text, "")
  }

  /**
   * A range of positions given by its start and its length. Nothing keeps
   * the length non-negative: the source record accepts any two integers.
   */
  datatype TextSpan = TextSpan(start: int, length: int)
  {
    /** One past the last position of the span. */
    function End(): int { start + length }
  }

  /** The span from `start` up to (not including) `end`. */
  function FromBounds(start: int, end: int): (r: TextSpan)
    ensures r.start == start && r.End() == end
  {
    TextSpan(start, end - start)
  }

  /** `TextSpan.ToString`: "start .. end". */
  function SpanToString(span: TextSpan): string {
    IntToString(span.start) + " .. " + IntToString(span.End())
  }

  /** A span inside a particular source text. */
  datatype TextLocation = TextLocation(source: SourceText, span: TextSpan)

  // ---------------------------------------------------------------------
  // Reading a span's text back
  // ---------------------------------------------------------------------

  /** The first index of `c` in `s`, or |s| when there is none. */
  function IndexOf(s: string, c: char): (r: nat)
    ensures r <= |s| && (r < |s| ==> s[r] == c)
    ensures forall j :: 0 <= j < r ==> s[j] != c
  {
    if s == [] then 0 else if s[0] == c then 0 else 1 + IndexOf(s[1..], c)
  }

  /** Recovers a span from the text `SpanToString` writes. */
  function ParseSpanText(s: string): Option<TextSpan> {
    var i := IndexOf(s, ' ');
    if i + 4 <= |s| && s[i..i + 4] == " .. " then
      match (ParseIntText(s[..i]), ParseIntText(s[i + 4..]))
      case (Some(a), Some(b)) => Some(FromBounds(a, b))
      case _ => None
    else None
  }

  /** `SpanToString` loses nothing: the span can be read back from its text. */
  lemma SpanToStringRoundTrip(span: TextSpan)
    ensures ParseSpanText(SpanToString(span)) == Some(span)
  {
    var a, b := IntToString(span.start), IntToString(span.End());
    assert ' ' !in a by {
      if span.start < 0 { assert a[1..] == NatToString(-span.start); }
    }
    IntToStringRoundTrip(span.start);
    IntToStringRoundTrip(span.End());
    ReadBackJoined(a, b, span.start, span.End());
  }

  /** Two number texts joined by " .. ", the first without a space, read back as the span between them. */
  lemma ReadBackJoined(a: string, b: string, x: int, y: int)
    requires ' ' !in a && ParseIntText(a) == Some(x) && ParseIntText(b) == Some(y)
    ensures ParseSpanText(a + " .. " + b) == Some(FromBounds(x, y))
  {
    Around(a, " .. ", b);
    IndexOfAppend(a, " .. " + b, ' ');
  }

  /** The three parts of `a + sep + b`, read back by position. */
  lemma Around<T>(a: seq<T>, sep: seq<T>, b: seq<T>)
    ensures a + sep + b == a + (sep + b)
    ensures (a + sep + b)[..|a|] == a && (a + sep + b)[|a| + |sep|..] == b
    ensures (a + sep + b)[|a|..|a| + |sep|] == sep
  {
  }

  lemma {:induction false} IndexOfAppend(a: string, b: string, c: char)
    requires c !in a && |b| > 0 && b[0] == c
    ensures IndexOf(a + b, c) == |a|
  {
    if a != [] {
      assert (a + b)[1..] == a[1..] + b;
      IndexOfAppend(a[1..], b, c);
    }
  }
}
