/**
 * A movable window `[start, start + length)` over an immutable source text.
 * The lexer grows the window character by character, commits it (Advance)
 * or throws it away (Reset).
 *
 * The window's state is also described as a value, `Window`, with one
 * function per operation; the class's methods are specified by those
 * functions, and the lexer's reference definition is written with them.
 */
module TextWindows {

  import opened Text

  // ---------------------------------------------------------------------
  // The reference definitions the window is specified by
  // ---------------------------------------------------------------------

  /** The character at position `i`, or the sentinel '\0' at or past the end. */
  function CharAt(t: string, i: nat): char {
    if i < |t| then t[i] else '\0'
  }

  /**
   * The length after `Extend(count)` on the window `[start, start + length)`:
   * it grows by `count`, but stops at the end of the text.
   */
  function ExtendedLength(t: string, start: nat, length: nat, count: nat): (n: nat)
    requires start + length <= |t|
    ensures start + n <= |t|
    ensures start + n == if start + length + count < |t| then start + length + count else |t|
  {
    if start + length + count < |t| then length + count else |t| - start
  }

  /**
   * Where `NextWhile(p)` stops when it starts scanning at position `i`:
   * the first position that is the end of the text, holds '\0', or holds a
   * character `p` rejects.
   */
  function ScanWhile(t: string, i: nat, p: char -> bool): (j: nat)
    requires i <= |t|
    ensures i <= j <= |t|
    ensures forall k :: i <= k < j ==> t[k] != '\0' && p(t[k])
    ensures j < |t| ==> t[j] == '\0' || !p(t[j])
    decreases |t| - i
  {
    if i < |t| && t[i] != '\0' && p(t[i]) then ScanWhile(t, i + 1, p) else i
  }

  /** The stop position is determined by the characters alone: the first one that ends the scan. */
  lemma ScanWhileIsFirstStop(t: string, i: nat, p: char -> bool, j: nat)
    requires i <= j <= |t|
    requires forall k :: i <= k < j ==> t[k] != '\0' && p(t[k])
    requires j < |t| ==> t[j] == '\0' || !p(t[j])
    ensures ScanWhile(t, i, p) == j
  {
  }

  /** Two predicates that agree on every character stop the scan at the same place. */
  lemma ScanWhileExtensional(t: string, i: nat, p: char -> bool, q: char -> bool)
    requires i <= |t|
    requires forall c :: p(c) == q(c)
    ensures ScanWhile(t, i, p) == ScanWhile(t, i, q)
  {
    ScanWhileIsFirstStop(t, i, q, ScanWhile(t, i, p));
  }

  /** A window as a value: where it starts and how many characters it holds. */
  datatype Window = Window(start: nat, length: nat) {
    function End(): nat { start + length }
  }

  /** The window lies inside the text. */
  predicate Fits(t: string, w: Window) {
    w.End() <= |t|
  }

  /** The characters inside the window. */
  function WindowContent(t: string, w: Window): (s: string)
    requires Fits(t, w)
    ensures |s| == w.length
  {
    t[w.start..w.End()]
  }

  /** `Peek(offset)`: the character `offset` places after the window. */
  function WindowPeek(t: string, w: Window, offset: nat): char {
    CharAt(t, w.End() + offset)
  }

  /** `Last`: the final character of the window, '\0' when it is empty. */
  function WindowLast(t: string, w: Window): char
    requires Fits(t, w)
  {
    if w.length > 0 then t[w.End() - 1] else '\0'
  }

  /** Whether the window reaches the end of the text. */
  predicate AtEnd(t: string, w: Window) {
    w.End() >= |t|
  }

  /** `Extend(count)`: the window grown by `count`, clamped at the end of the text. */
  function Extended(t: string, w: Window, count: nat): (r: Window)
    requires Fits(t, w)
    ensures Fits(t, r) && r.start == w.start
    ensures r.End() == if w.End() + count < |t| then w.End() + count else |t|
  {
    Window(w.start, ExtendedLength(t, w.start, w.length, count))
  }

  /** `NextWhile(p)`: the window grown over the characters `p` accepts. */
  function ScannedWhile(t: string, w: Window, p: char -> bool): (r: Window)
    requires Fits(t, w)
    ensures Fits(t, r) && r.start == w.start && r.End() == ScanWhile(t, w.End(), p)
  {
    Window(w.start, ScanWhile(t, w.End(), p) - w.start)
  }

  /** `NextUntil(p)`: the window grown up to the first character `p` accepts. */
  function ScannedUntil(t: string, w: Window, p: char -> bool): (r: Window)
    requires Fits(t, w)
    ensures Fits(t, r) && r.start == w.start
    ensures w.End() <= r.End()
    ensures forall k :: w.End() <= k < r.End() ==> t[k] != '\0' && !p(t[k])
    ensures r.End() < |t| ==> t[r.End()] == '\0' || p(t[r.End()])
  {
    ScannedWhile(t, w, c => !p(c))
  }

  /** `Back(count)`, for a count the window holds. */
  function Shrunk(w: Window, count: nat): (r: Window)
    requires count <= w.length
    ensures r.start == w.start && r.End() == w.End() - count
  {
    Window(w.start, w.length - count)
  }

  /** `Advance`: the next window starts where this one ends, empty. */
  function Committed(w: Window): (r: Window)
    ensures r.start == w.End() && r.length == 0
  {
    Window(w.End(), 0)
  }

  /** `Reset`: the window emptied, its start kept. */
  function Emptied(w: Window): (r: Window)
    ensures r.start == w.start && r.length == 0
  {
    Window(w.start, 0)
  }

  function WindowLocation(source: SourceText, w: Window): TextLocation {
    TextLocation(source, TextSpan(w.start, w.length))
  }

  /** `Right`: the span of the window's last character, or the empty span at its start. */
  function WindowRight(source: SourceText, w: Window): (r: TextLocation)
    ensures r.source == source
    ensures w.length > 0 ==> r.span.length == 1 && r.span.End() == w.End()
    ensures w.length == 0 ==> r.span == TextSpan(w.start, 0)
  {
    TextLocation(source, TextSpan(if w.length > 0 then w.End() - 1 else w.start, if w.length > 0 then 1 else 0))
  }

  // ---------------------------------------------------------------------
  // The window
  // ---------------------------------------------------------------------

  class TextWindow {
    const source: SourceText
    var start: nat
    var length: nat

    /** The window never reaches past the end of the text. */
    ghost predicate Valid()
      reads this
    {
      Fits(source.text, State())
    }

    constructor (source: SourceText)
      ensures Valid() && this.source == source && start == 0 && length == 0
    {
      this.source := source;
      start := 0;
      length := 0;
    }

    function State(): Window
      reads this
    {
      Window(start, length)
    }

    function End(): nat
      reads this
    {
      start + length
    }

    /** The characters inside the window. */
    function Content(): (s: string)
      reads this
      requires Valid()
      ensures s == source.text[start..End()]
    {
      WindowContent(source.text, State())
    }

    /** The final character of the window, or '\0' when it is empty. */
    function Last(): (c: char)
      reads this
      requires Valid()
      ensures length > 0 ==> c == Content()[length - 1]
      ensures length == 0 ==> c == '\0'
    {
      WindowLast(source.text, State())
    }

    function Span(): TextSpan
      reads this
    {
      TextSpan(start, length)
    }

    function Location(): (r: TextLocation)
      reads this
      ensures r == TextLocation(source, Span())
    {
      WindowLocation(source, State())
    }

    /** The span of the last character of the window, or the empty span at the start. */
    function Right(): (r: TextLocation)
      reads this
      ensures r.source == source
      ensures length > 0 ==> r.span.length == 1 && r.span.End() == End()
      ensures length == 0 ==> r.span == TextSpan(start, 0)
    {
      WindowRight(source, State())
    }

    /** Whether the window reaches the end of the text. */
    predicate EndOfFile()
      reads this
    {
      AtEnd(source.text, State())
    }

    /**
     * The character `offset` places after the window, '\0' at or past the
     * end of the text; it looks without moving anything.
     */
    function Peek(offset: nat): (c: char)
      reads this
      ensures End() + offset < |source.text| ==> c == source.text[End() + offset]
      ensures End() + offset >= |source.text| ==> c == '\0'
    {
      WindowPeek(source.text, State(), offset)
    }

    /** Grows the window by `count` characters, clamped at the end of the text. */
    method Extend(count: nat)
      requires Valid()
      modifies this
      ensures Valid()
      ensures State() == Extended(source.text, old(State()), count)
    {
      var newLength := length + count;
      length := if start + newLength < |source.text| then newLength else |source.text| - start;
    }

    /** Grows the window by one exactly when the next character is `candidate`. */
    method TryExtend(candidate: char) returns (b: bool)
      requires Valid()
      modifies this
      ensures Valid()
      ensures b == (WindowPeek(source.text, old(State()), 0) == candidate)
      ensures State() == if b then Extended(source.text, old(State()), 1) else old(State())
    {
      if Peek(0) == candidate {
        Extend(1);
        return true;
      }
      return false;
    }

    /** Takes the next character into the window and returns it ('\0' at the end, taking nothing). */
    method Next() returns (c: char)
      requires Valid()
      modifies this
      ensures Valid()
      ensures c == old(Peek(0))
      ensures State() == Extended(source.text, old(State()), 1)
      ensures old(EndOfFile()) ==> c == '\0' && State() == old(State())
      ensures !old(EndOfFile()) ==> Content() == old(Content()) + [c]
    {
      c := Peek(0);
      Extend(1);
      assert !old(EndOfFile()) ==> Content() == old(Content()) + [source.text[old(End())]];
    }

    /** Takes up to `count` further characters and returns those it took. */
    method NextCount(count: nat) returns (s: string)
      requires Valid()
      modifies this
      ensures Valid()
      ensures State() == Extended(source.text, old(State()), count)
      ensures Content() == old(Content()) + s
    {
      var oldLength := length;
      Extend(count);
      s := source.text[start + oldLength..start + length];
      assert source.text[start..End()] == source.text[start..start + oldLength] + s;
    }

    /** Takes characters while `p` accepts them, stopping at '\0' or the end; returns those taken. */
    method NextWhile(p: char -> bool) returns (s: string)
      requires Valid()
      modifies this
      ensures Valid()
      ensures State() == ScannedWhile(source.text, old(State()), p)
      ensures Content() == old(Content()) + s
    {
      var oldLength := length;
      while true
        invariant Valid() && start == old(start) && oldLength <= length
        invariant ScanWhile(source.text, End(), p) == ScanWhile(source.text, old(End()), p)
        decreases |source.text| - End()
      {
        var c := Peek(0);
        if c == '\0' || !p(c) {
          break;
        }
        Extend(1);
      }
      s := source.text[start + oldLength..End()];
      assert source.text[start..End()] == source.text[start..start + oldLength] + s;
    }

    /** Takes characters until `p` accepts one, stopping at '\0' or the end; returns those taken. */
    method NextUntil(p: char -> bool) returns (s: string)
      requires Valid()
      modifies this
      ensures Valid()
      ensures State() == ScannedUntil(source.text, old(State()), p)
      ensures Content() == old(Content()) + s
    {
      var notP := c => !p(c);
      s := NextWhile(notP);
      ScanWhileExtensional(source.text, old(End()), notP, c => !p(c));
    }

    /** Gives back the last `count` characters; more than the window holds is an error. */
    method Back(count: nat) returns (ok: bool)
      requires Valid()
      modifies this
      ensures Valid()
      ensures ok == (count <= old(length))
      ensures ok ==> State() == Shrunk(old(State()), count)
      ensures !ok ==> State() == old(State())
    {
      if count > length {
        return false;
      }
      length := length - count;
      return true;
    }

    /** Commits the window: the next one starts where this one ends, empty. */
    method Advance()
      requires Valid()
      modifies this
      ensures Valid() && State() == Committed(old(State()))
    {
      start := start + length;
      length := 0;
    }

    /** Empties the window without moving its start. */
    method Reset()
      requires Valid()
      modifies this
      ensures Valid() && State() == Emptied(old(State()))
    {
      length := 0;
    }

    /**
     * `Assert(char)`: checks that the next character is `c`, then takes one
     * character whatever it was; `ok` is the outcome of the assertion.
     */
    method AssertChar(c: char) returns (ok: bool)
      requires Valid()
      modifies this
      ensures Valid()
      ensures ok == (old(Peek(0)) == c)
      ensures State() == Extended(source.text, old(State()), 1)
    {
      ok := Peek(0) == c;
      Extend(1);
    }

    /**
     * `Assert(string)`: takes `|s|` characters, then checks that the
     * characters taken are exactly `s`; `ok` is the outcome of the assertion.
     */
    method AssertText(s: string) returns (ok: bool)
      requires Valid()
      modifies this
      ensures Valid()
      ensures State() == Extended(source.text, old(State()), |s|)
      ensures ok == (source.text[old(End())..End()] == s)
    {
      var oldLength := length;
      Extend(|s|);
      ok := source.text[start + oldLength..start + length] == s;
    }
  }

  // ---------------------------------------------------------------------
  // Properties of the window operations
  // ---------------------------------------------------------------------

  /** Extending never moves the start and never shrinks the window; it stops at the end of the text. */
  lemma ExtendIsClamped(t: string, w: Window, count: nat)
    requires Fits(t, w)
    ensures w.length <= Extended(t, w, count).length <= w.length + count
    ensures Extended(t, w, count).length < w.length + count ==> AtEnd(t, Extended(t, w, count))
  {
  }

  /** Extending twice is extending by the sum. */
  lemma ExtendTwice(t: string, w: Window, m: nat, n: nat)
    requires Fits(t, w)
    ensures Extended(t, Extended(t, w, m), n) == Extended(t, w, m + n)
  {
  }

  /** At the end of the text, extending changes nothing. */
  lemma ExtendAtEnd(t: string, w: Window, count: nat)
    requires Fits(t, w) && AtEnd(t, w)
    ensures Extended(t, w, count) == w
  {
  }

  /** A scan takes exactly the characters it accepts: the content grows by them and no more. */
  lemma ScannedWhileContent(t: string, w: Window, p: char -> bool)
    requires Fits(t, w)
    ensures WindowContent(t, ScannedWhile(t, w, p)) == WindowContent(t, w) + t[w.End()..ScanWhile(t, w.End(), p)]
    ensures forall c :: c in t[w.End()..ScanWhile(t, w.End(), p)] ==> c != '\0' && p(c)
  {
    var j := ScanWhile(t, w.End(), p);
    assert t[w.start..j] == t[w.start..w.End()] + t[w.End()..j];
    forall c | c in t[w.End()..j]
      ensures c != '\0' && p(c)
    {
      var k :| 0 <= k < j - w.End() && t[w.End()..j][k] == c;
      assert t[w.End() + k] == c;
    }
  }

  /** Committing and backing out: Advance keeps the end, Reset keeps the start. */
  lemma CommitThenReset(w: Window)
    ensures Emptied(Committed(w)) == Committed(w)
    ensures Committed(Emptied(w)) == Emptied(w)
  {
  }
}
