/**
 * Diagnostics: the catalogue of descriptors, diagnostics attached to a
 * location, composite-format message rendering, and the builder that
 * accumulates diagnostics in the order they are reported.
 */
module Diagnostics {

  import opened Wrappers
  import opened Strings
  import opened Text
  import opened SyntaxFacts

  datatype Severity = Error | Warning | Lint

  function SeverityName(s: Severity): string {
    match s
    case Error => "Error"
    case Warning => "Warning"
    case Lint => "Lint"
  }

  datatype Descriptor = Descriptor(id: string, severity: Severity, title: string, messageFormat: string)

  // The tokenizer's descriptors (ids VI0000-VI0999).
  const InvalidEscapeSequence := Descriptor("VI0001", Error, "Invalid Escape Sequence", "Invalid Escape Sequence '{0}'")
  const UnterminatedStringLiteral := Descriptor("VI0002", Error, "Unterminated String Literal", "Unterminated String Literal")
  const IntegerLiteralTooLarge := Descriptor("VI0003", Error, "Integer Literal Too Large", "The Integer literal {0} is too large")
  const UnexpectedCharacter := Descriptor("VI0004", Error, "Unexpected Character", "Unexpected '{0}', expected '{1}'")
  const UnexpectedEndOfFile := Descriptor("VI0005", Error, "Unexpected end of file", "Unexpected end of file, expected '{0}'")
  // The parser's descriptors (ids VI1000-VI1999).
  const UnexpectedToken := Descriptor("VI1000", Error, "Unexpected Token", "Unexpected token <{0}>, expected <{1}>")
  const ComparisonsCannotBeChained := Descriptor("VI1001", Error, "Comparison cannot be chained", "Comparison operators cannot be chained")
  const ExpectedMember := Descriptor("VI1002", Error, "Expected a Member", "Expected a member declaration, but found <{0}>")
  // The binder's descriptors (ids VI2000-VI2999).
  const SymbolAlreadyDeclared := Descriptor("VI2000", Error, "Symbol Already Declared", "A symbol named '{0}' has already been declared in this scope")
  const UndefinedFunction := Descriptor("VI2001", Error, "Undefined Function", "Could not resolve function '{0}'")
  const NotCallable := Descriptor("VI2002", Error, "Not Callable", "The expression '{0}' is not callable")

  const TokenizerDescriptors: seq<Descriptor> :=
    [InvalidEscapeSequence, UnterminatedStringLiteral, IntegerLiteralTooLarge, UnexpectedCharacter, UnexpectedEndOfFile]
  const ParserDescriptors: seq<Descriptor> := [UnexpectedToken, ComparisonsCannotBeChained, ExpectedMember]
  const BinderDescriptors: seq<Descriptor> := [SymbolAlreadyDeclared, UndefinedFunction, NotCallable]

  function AllDescriptors(): seq<Descriptor> { TokenizerDescriptors + ParserDescriptors + BinderDescriptors }

  /**
   * A message argument: a string, a kind (which formats as its name), or a
   * whole argument list passed as one object (which formats as the name of
   * its runtime type, an object array).
   */
  datatype Arg = TextArg(text: string) | KindArg(kind: SyntaxKind) | ListArg(items: seq<Arg>)

  function ArgText(a: Arg): string {
    match a
    case TextArg(t) => t
    case KindArg(k) => KindName(k)
    case ListArg(_) => "System.Object[]"
  }

  function ArgTexts(args: seq<Arg>): (r: seq<string>)
    ensures |r| == |args| && forall i :: 0 <= i < |args| ==> r[i] == ArgText(args[i])
  {
    if args == [] then [] else [ArgText(args[0])] + ArgTexts(args[1..])
  }

  datatype Diagnostic = Diagnostic(descriptor: Descriptor, location: TextLocation, args: seq<Arg>)
  {
    function Id(): string { descriptor.id }

    function Title(): string { descriptor.title }

    /**
     * The message: the descriptor's template filled with the arguments,
     * which is what the corrected rendering shows after its header.
     */
    function Message(): (r: Result<string>)
      ensures DescriptorFormatWithArguments(descriptor, args) == Prepend(Header(descriptor), r)
    {
      FormatTemplate(descriptor.messageFormat, ArgTexts(args))
    }

    /**
     * "file[start .. end] " followed by the descriptor's rendering. As
     * written, what it shows does not depend on the arguments at all.
     */
    function Format(): (r: Result<string>)
      ensures r == Prepend(LocationPrefix(location), DescriptorFormat(descriptor, []))
    {
      Prepend(LocationPrefix(location), DescriptorFormat(descriptor, args))
    }
  }

  /** "file[start .. end] ", the location part of a formatted diagnostic. */
  function LocationPrefix(location: TextLocation): string {
    location.source.fileName + "[" + IntToString(location.span.start) + " .. "
    + IntToString(location.span.End()) + "] "
  }

  function Prepend(prefix: string, r: Result<string>): (q: Result<string>)
    ensures q.Ok? <==> r.Ok?
    ensures q.Ok? ==> q.value == prefix + r.value
  {
    match r
    case Ok(s) => Ok(prefix + s)
    case Fatal(why) => Fatal(why)
  }

  // ---------------------------------------------------------------------
  // Composite formatting (string.Format)
  // ---------------------------------------------------------------------

  /** The number of leading decimal digits of `s`. */
  function DigitRun(s: string): (n: nat)
    ensures n <= |s| && AllDigits(s[..n]) && (n < |s| ==> !IsDigit(s[n]))
  {
    if s == [] || !IsDigit(s[0]) then 0
    else
      var n := 1 + DigitRun(s[1..]);
      assert s[..n] == [s[0]] + s[1..][..n - 1];
      n
  }

  /**
   * `string.Format(template, args)`: each "{i}" is replaced by argument i,
   * "{{" and "}}" stand for single braces, and an index outside the argument
   * list or a stray brace raises `FormatException`.
   */
  function FormatTemplate(template: string, args: seq<string>): Result<string>
    decreases |template|
  {
    if template == [] then Ok("")
    else if template[0] == '{' then
      if |template| > 1 && template[1] == '{' then Prepend("{", FormatTemplate(template[2..], args))
      else
        var n := DigitRun(template[1..]);
        if n > 0 && n + 1 < |template| && template[n + 1] == '}' then
          var index := DigitsValue(template[1..][..n]);
          if index < |args| then Prepend(args[index], FormatTemplate(template[n + 2..], args))
          else Fatal("FormatException: index out of range")
        else Fatal("FormatException: malformed placeholder")
    else if template[0] == '}' then
      if |template| > 1 && template[1] == '}' then Prepend("}", FormatTemplate(template[2..], args))
      else Fatal("FormatException: stray brace")
    else Prepend([template[0]], FormatTemplate(template[1..], args))
  }

  predicate BraceFree(s: string) { forall i :: 0 <= i < |s| ==> s[i] != '{' && s[i] != '}' }

  /** Text without braces is copied unchanged. */
  lemma PrependTwice(a: string, b: string, r: Result<string>)
    ensures Prepend(a, Prepend(b, r)) == Prepend(a + b, r)
  {
    if r.Ok? { assert a + (b + r.value) == (a + b) + r.value; }
  }

  lemma FormatPlainCharacter(c: char, rest: string, args: seq<string>)
    requires c != '{' && c != '}'
    ensures FormatTemplate([c] + rest, args) == Prepend([c], FormatTemplate(rest, args))
  {
    assert ([c] + rest)[1..] == rest;
  }

  lemma {:induction false} FormatCopiesPlainText(p: string, rest: string, args: seq<string>)
    requires BraceFree(p)
    ensures FormatTemplate(p + rest, args) == Prepend(p, FormatTemplate(rest, args))
  {
    if p != [] {
      assert p + rest == [p[0]] + (p[1..] + rest);
      FormatPlainCharacter(p[0], p[1..] + rest, args);
      assert FormatTemplate(p + rest, args) == Prepend([p[0]], FormatTemplate(p[1..] + rest, args));
      FormatCopiesPlainText(p[1..], rest, args);
      assert FormatTemplate(p + rest, args) == Prepend([p[0]], Prepend(p[1..], FormatTemplate(rest, args)));
      PrependTwice([p[0]], p[1..], FormatTemplate(rest, args));
      assert [p[0]] + p[1..] == p;
    } else {
      assert p + rest == rest;
      var r := FormatTemplate(rest, args);
      if r.Ok? { assert p + r.value == r.value; }
    }
  }

  /** A placeholder "{i}" with a one-digit index takes argument i, or fails if there is none. */
  lemma FormatPlaceholder(d: char, rest: string, args: seq<string>)
    requires IsDigit(d)
    ensures FormatTemplate(['{', d, '}'] + rest, args)
         == if DigitValue(d) < |args| then Prepend(args[DigitValue(d)], FormatTemplate(rest, args))
            else Fatal("FormatException: index out of range")
  {
    var t := ['{', d, '}'] + rest;
    assert t[1..] == [d] + (['}'] + rest);
    assert t[1..][1..] == ['}'] + rest;
    assert DigitRun(t[1..][1..]) == 0;
    assert DigitRun(t[1..]) == 1;
    assert t[1..][..1] == [d];
    assert DigitsValue([d]) == DigitValue(d) by {
      assert [d][..0] == [];
    }
    assert t[3..] == rest;
  }

  /** A template "p{i}s" with brace-free p and s. */
  lemma FormatOnePlaceholder(p: string, d: char, s: string, args: seq<string>)
    requires BraceFree(p) && BraceFree(s) && IsDigit(d)
    ensures FormatTemplate(p + ['{', d, '}'] + s, args)
         == if DigitValue(d) < |args| then Ok(p + args[DigitValue(d)] + s)
            else Fatal("FormatException: index out of range")
  {
    var x := ['{', d, '}'] + s;
    assert p + ['{', d, '}'] + s == p + x;
    FormatCopiesPlainText(p, x, args);
    HoleThenPlainText(d, s, args);
    if DigitValue(d) < |args| {
      assert p + (args[DigitValue(d)] + s) == p + args[DigitValue(d)] + s;
    }
  }

  lemma HoleThenPlainText(d: char, s: string, args: seq<string>)
    requires BraceFree(s) && IsDigit(d)
    ensures FormatTemplate(['{', d, '}'] + s, args)
         == if DigitValue(d) < |args| then Ok(args[DigitValue(d)] + s)
            else Fatal("FormatException: index out of range")
  {
    FormatPlaceholder(d, s, args);
    FormatCopiesPlainText(s, [], args);
    assert s + [] == s;
  }

  /** Text, the placeholder "{1}", text. */
  lemma FormatSecondHole(m: string, s: string, args: seq<string>)
    requires BraceFree(m) && BraceFree(s)
    ensures FormatTemplate(m + ['{', '1', '}'] + s, args)
         == if 1 < |args| then Ok(m + args[1] + s) else Fatal("FormatException: index out of range")
  {
    FormatOnePlaceholder(m, '1', s, args);
  }

  /** A template "p{0}m{1}s" with brace-free p, m and s. */
  lemma FormatTwoPlaceholders(t: string, p: string, m: string, s: string, args: seq<string>)
    requires t == p + "{0}" + m + "{1}" + s && BraceFree(p) && BraceFree(m) && BraceFree(s)
    ensures FormatTemplate(t, args)
         == if |args| >= 2 then Ok(p + args[0] + m + args[1] + s)
            else Fatal("FormatException: index out of range")
  {
    var y := m + ['{', '1', '}'] + s;
    var x := ['{', '0', '}'] + y;
    assert t == p + x;
    FormatCopiesPlainText(p, x, args);
    FormatPlaceholder('0', y, args);
    FormatSecondHole(m, s, args);
    if |args| >= 2 {
      PrependTwice(p, args[0], FormatTemplate(y, args));
      assert p + args[0] + (m + args[1] + s) == p + args[0] + m + args[1] + s;
    }
  }

  // ---------------------------------------------------------------------
  // Descriptor.Format
  // ---------------------------------------------------------------------

  /** "Severity Id: ", the part of a rendering in front of the message. */
  function Header(d: Descriptor): string { SeverityName(d.severity) + " " + d.id + ": " }

  /**
   * `DiagnosticDescriptor.Format(messageArgs)` as written: the argument
   * list is handed to `string.Format` as one object, so placeholder 0 is
   * the list's type name and any higher placeholder has no argument.
   */
  function DescriptorFormat(d: Descriptor, args: seq<Arg>): (r: Result<string>)
    ensures r == Prepend(Header(d), FormatTemplate(d.messageFormat, ["System.Object[]"]))
    ensures BraceFree(d.messageFormat) ==> r == Ok(Header(d) + d.messageFormat)
  {
    assert ArgTexts([ListArg(args)]) == ["System.Object[]"];
    PlainTemplate(d.messageFormat, ["System.Object[]"]);
    Prepend(Header(d), FormatTemplate(d.messageFormat, ArgTexts([ListArg(args)])))
  }

  /**
   * What `Descriptor.Format` evidently means: the arguments fill the
   * placeholders. On a template without placeholders it renders exactly
   * what the as-written version renders.
   */
  function DescriptorFormatWithArguments(d: Descriptor, args: seq<Arg>): (r: Result<string>)
    ensures BraceFree(d.messageFormat) ==> r == Ok(Header(d) + d.messageFormat) && r == DescriptorFormat(d, args)
  {
    PlainTemplate(d.messageFormat, ArgTexts(args));
    Prepend(Header(d), FormatTemplate(d.messageFormat, ArgTexts(args)))
  }

  /** A template without braces renders as itself. */
  lemma PlainTemplate(t: string, args: seq<string>)
    ensures BraceFree(t) ==> FormatTemplate(t, args) == Ok(t)
  {
    if BraceFree(t) {
      FormatCopiesPlainText(t, [], args);
      assert t + [] == t;
    }
  }

  /** A template with one placeholder "{0}" between brace-free texts. */
  lemma FormatOneHole(t: string, p: string, s: string, args: seq<string>)
    requires t == p + "{0}" + s && BraceFree(p) && BraceFree(s)
    ensures FormatTemplate(t, args)
         == if 0 < |args| then Ok(p + args[0] + s) else Fatal("FormatException: index out of range")
  {
    assert "{0}" == ['{', '0', '}'];
    FormatOnePlaceholder(p, '0', s, args);
  }

  /** Rendering a descriptor whose template has the one placeholder {0}. */
  lemma OneHoleDescriptorFormat(d: Descriptor, p: string, s: string, args: seq<Arg>)
    requires d.messageFormat == p + "{0}" + s && BraceFree(p) && BraceFree(s)
    ensures DescriptorFormat(d, args) == Ok(Header(d) + (p + "System.Object[]" + s))
    ensures |args| > 0 ==> DescriptorFormatWithArguments(d, args) == Ok(Header(d) + (p + ArgText(args[0]) + s))
  {
    FormatOneHole(d.messageFormat, p, s, ArgTexts([ListArg(args)]));
    FormatOneHole(d.messageFormat, p, s, ArgTexts(args));
  }

  /** Rendering a descriptor whose template has the placeholders {0} and {1}. */
  lemma TwoHoleDescriptorFormat(d: Descriptor, p: string, m: string, s: string, args: seq<Arg>)
    requires d.messageFormat == p + "{0}" + m + "{1}" + s && BraceFree(p) && BraceFree(m) && BraceFree(s)
    ensures DescriptorFormat(d, args).Fatal?
    ensures |args| >= 2 ==>
      DescriptorFormatWithArguments(d, args) == Ok(Header(d) + (p + ArgText(args[0]) + m + ArgText(args[1]) + s))
  {
    FormatTwoPlaceholders(d.messageFormat, p, m, s, ArgTexts([ListArg(args)]));
    FormatTwoPlaceholders(d.messageFormat, p, m, s, ArgTexts(args));
  }

  /** As written, the arguments never reach the rendering. */
  lemma DescriptorFormatIgnoresArguments(d: Descriptor, args: seq<Arg>, others: seq<Arg>)
    ensures DescriptorFormat(d, args) == DescriptorFormat(d, others)
  {
  }

  /** As written, an escape-sequence error shows the argument list's type name instead of the sequence. */
  lemma DescriptorFormatHidesEscapeSequence(x: string)
    ensures DescriptorFormat(InvalidEscapeSequence, [TextArg(x)])
         == Ok(Header(InvalidEscapeSequence) + ("Invalid Escape Sequence '" + "System.Object[]" + "'"))
  {
    OneHoleDescriptorFormat(InvalidEscapeSequence, "Invalid Escape Sequence '", "'", [TextArg(x)]);
  }

  /** As written, rendering an unexpected-token error raises `FormatException`, whatever the arguments. */
  lemma DescriptorFormatFailsOnTwoPlaceholders(args: seq<Arg>)
    ensures DescriptorFormat(UnexpectedToken, args).Fatal?
  {
    TwoHoleDescriptorFormat(UnexpectedToken, "Unexpected token <", ">, expected <", ">", args);
  }

  /** With the arguments passed through, the escape sequence appears in the rendering. */
  lemma DescriptorFormatWithArgumentsShowsArgument(x: string)
    ensures DescriptorFormatWithArguments(InvalidEscapeSequence, [TextArg(x)])
         == Ok(Header(InvalidEscapeSequence) + ("Invalid Escape Sequence '" + x + "'"))
  {
    OneHoleDescriptorFormat(InvalidEscapeSequence, "Invalid Escape Sequence '", "'", [TextArg(x)]);
  }

  /** With the arguments passed through, both kinds of an unexpected-token error appear. */
  lemma DescriptorFormatWithArgumentsShowsKinds(found: SyntaxKind, expected: SyntaxKind)
    ensures DescriptorFormatWithArguments(UnexpectedToken, [KindArg(found), KindArg(expected)])
         == Ok(Header(UnexpectedToken) + ("Unexpected token <" + KindName(found) + ">, expected <" + KindName(expected) + ">"))
  {
    TwoHoleDescriptorFormat(UnexpectedToken, "Unexpected token <", ">, expected <", ">",
                            [KindArg(found), KindArg(expected)]);
  }

  // ---------------------------------------------------------------------
  // Messages of the catalogue
  // ---------------------------------------------------------------------

  /** A template without placeholders renders as itself, whatever the arguments. */
  lemma PlainMessage(d: Diagnostic)
    requires BraceFree(d.descriptor.messageFormat)
    ensures d.Message() == Ok(d.descriptor.messageFormat)
  {
    FormatCopiesPlainText(d.descriptor.messageFormat, [], ArgTexts(d.args));
    assert d.descriptor.messageFormat + [] == d.descriptor.messageFormat;
  }

  /** The unterminated-string and chained-comparison messages are fixed sentences. */
  lemma FixedMessages(d: Diagnostic)
    requires d.descriptor == UnterminatedStringLiteral || d.descriptor == ComparisonsCannotBeChained
    ensures d.Message() == Ok(d.descriptor.messageFormat)
  {
    if d.descriptor == UnterminatedStringLiteral {
      assert BraceFree("Unterminated String Literal");
    } else {
      assert BraceFree("Comparison operators cannot be chained");
    }
    PlainMessage(d);
  }

  /** An unexpected-character diagnostic, reported with one argument, has no message. */
  lemma UnexpectedCharacterMessageFails(location: TextLocation, c: string)
    ensures Diagnostic(UnexpectedCharacter, location, [TextArg(c)]).Message().Fatal?
  {
    FormatTwoPlaceholders(UnexpectedCharacter.messageFormat, "Unexpected '", "', expected '", "'",
                          ArgTexts([TextArg(c)]));
  }

  /** Messages with one placeholder show their one argument. */
  lemma OneArgumentMessage(d: Diagnostic, p: string, s: string)
    requires d.descriptor.messageFormat == p + "{0}" + s && BraceFree(p) && BraceFree(s)
    requires |d.args| == 1
    ensures d.Message() == Ok(p + ArgText(d.args[0]) + s)
  {
    FormatOneHole(d.descriptor.messageFormat, p, s, ArgTexts(d.args));
  }

  // ---------------------------------------------------------------------
  // The catalogue
  // ---------------------------------------------------------------------

  /** Every descriptor is an error, and the identifiers are pairwise different. */
  lemma CatalogueIsConsistent()
    ensures forall d :: d in AllDescriptors() ==> d.severity == Error
    ensures forall i, j :: 0 <= i < j < |AllDescriptors()| ==> AllDescriptors()[i].id != AllDescriptors()[j].id
  {
  }

  /** Each component reports identifiers from its own thousand: 0 tokenizer, 1 parser, 2 binder. */
  lemma IdentifierRanges()
    ensures forall d :: d in TokenizerDescriptors ==> d.id[..3] == "VI0"
    ensures forall d :: d in ParserDescriptors ==> d.id[..3] == "VI1"
    ensures forall d :: d in BinderDescriptors ==> d.id[..3] == "VI2"
  {
  }

  /** The `HasErrors` extension on a finished list: some diagnostic has error severity. */
  predicate AnyError(ds: seq<Diagnostic>) {
    exists i :: 0 <= i < |ds| && ds[i].descriptor.severity == Error
  }

  /** Since every descriptor is an error, a list of catalogue diagnostics has errors exactly when it is not empty. */
  lemma HasErrorsIffNonEmpty(ds: seq<Diagnostic>)
    requires forall i :: 0 <= i < |ds| ==> ds[i].descriptor in AllDescriptors()
    ensures AnyError(ds) <==> ds != []
  {
    CatalogueIsConsistent();
    if ds != [] { assert ds[0].descriptor in AllDescriptors(); }
  }

  // ---------------------------------------------------------------------
  // DiagnosticBuilder
  // ---------------------------------------------------------------------

  /** Accumulates diagnostics in the order they are added. */
  class DiagnosticBuilder {
    var items: seq<Diagnostic>

    constructor ()
      ensures items == []
    {
      items := [];
    }

    method Add(descriptor: Descriptor, location: TextLocation, args: seq<Arg>)
      modifies this
      ensures items == old(items) + [Diagnostic(descriptor, location, args)]
    {
      items := items + [Diagnostic(descriptor, location, args)];
    }

    method AddDiagnostic(d: Diagnostic)
      modifies this
      ensures items == old(items) + [d]
    {
      items := items + [d];
    }

    method AddRange(ds: seq<Diagnostic>)
      modifies this
      ensures items == old(items) + ds
    {
      items := items + ds;
    }

    /** A snapshot: later additions to the builder do not change it. */
    method ToImmutableArray() returns (r: seq<Diagnostic>)
      ensures r == items
    {
      r := items;
    }

    function HasErrors(): (b: bool)
      reads this
      ensures b <==> exists i :: 0 <= i < |items| && items[i].descriptor.severity == Error
    {
      AnyError(items)
    }
  }
}
