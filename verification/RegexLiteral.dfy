/** Regular expressions written as `/body/flags`, and the scanner that reads them back. */
module RegexLiteral {
  import opened Collections

  datatype Literal = Literal(pattern: string, flags: string)

  datatype PatternInput = Regex(source: string, flags: string) | Text(text: string)

  /** The scanner's two flags. */
  datatype Mode = Mode(escaped: bool, inClass: bool)

  const NEUTRAL := Mode(false, false)

  function Step(m: Mode, c: char): Mode {
    if m.escaped then Mode(false, m.inClass)
    else if c == '\\' then Mode(true, m.inClass)
    else if c == '[' then Mode(false, true)
    else if c == ']' && m.inClass then Mode(false, false)
    else m
  }

  function After(m: Mode, s: string): Mode
    decreases |s|
  {
    if s == "" then m else After(Step(m, s[0]), s[1..])
  }

  /** No slash of `s` ends a literal that is in mode `m` before `s`. */
  predicate Unclosed(m: Mode, s: string)
    decreases |s|
  {
    s == "" || (!(s[0] == '/' && m == NEUTRAL) && Unclosed(Step(m, s[0]), s[1..]))
  }

  function FirstClose(m: Mode, s: string): Option<nat>
    decreases |s|
  {
    if s == "" then None
    else if s[0] == '/' && m == NEUTRAL then Some(0)
    else
      match FirstClose(Step(m, s[0]), s[1..])
      case None => None
      case Some(i) => Some(i + 1)
  }

  predicate ValidFlags(flags: string) {
    forall i | 0 <= i < |flags| :: flags[i] in "dgimsuvy"
  }

  function Parse(source: string): Option<Literal> {
    if |source| < 2 || source[0] != '/' then None
    else
      match FirstClose(NEUTRAL, source[1..])
      case None => None
      case Some(i) =>
        CloseInside(NEUTRAL, source[1..]);
        if ValidFlags(source[i + 2..]) then Some(Literal(source[1..i + 1], source[i + 2..])) else None
  }

  lemma {:induction false} CloseInside(m: Mode, s: string)
    ensures FirstClose(m, s).Some? ==> FirstClose(m, s).value < |s|
    decreases |s|
  {
    if s != "" {
      CloseInside(Step(m, s[0]), s[1..]);
    }
  }

  // ---------- The scanner ----------

  lemma {:induction false} AfterAppend(m: Mode, s: string, t: string)
    ensures After(m, s + t) == After(After(m, s), t)
    decreases |s|
  {
    if s == "" {
      assert s + t == t;
    } else {
      assert (s + t)[1..] == s[1..] + t;
      AfterAppend(Step(m, s[0]), s[1..], t);
    }
  }

  lemma {:induction false} UnclosedAppend(m: Mode, s: string, t: string)
    ensures Unclosed(m, s + t) <==> Unclosed(m, s) && Unclosed(After(m, s), t)
    decreases |s|
  {
    if s == "" {
      assert s + t == t;
    } else {
      assert (s + t)[1..] == s[1..] + t;
      UnclosedAppend(Step(m, s[0]), s[1..], t);
    }
  }

  /** The first closing slash is the one before which the text is unclosed and leaves the scanner neutral. */
  lemma {:induction false} FirstCloseIs(m: Mode, body: string, rest: string)
    requires Unclosed(m, body) && After(m, body) == NEUTRAL
    ensures FirstClose(m, body + "/" + rest) == Some(|body|)
    decreases |body|
  {
    var s := body + "/" + rest;
    if body == "" {
      assert s[0] == '/';
    } else {
      assert s[1..] == body[1..] + "/" + rest;
      FirstCloseIs(Step(m, body[0]), body[1..], rest);
    }
  }

  lemma {:induction false} NoClose(m: Mode, s: string)
    ensures FirstClose(m, s).None? <==> Unclosed(m, s)
    decreases |s|
  {
    if s != "" {
      NoClose(Step(m, s[0]), s[1..]);
    }
  }

  lemma {:induction false} CloseFacts(m: Mode, s: string)
    requires FirstClose(m, s).Some?
    ensures
      var i := FirstClose(m, s).value;
      i < |s| && s[i] == '/' && Unclosed(m, s[..i]) && After(m, s[..i]) == NEUTRAL
    decreases |s|
  {
    CloseInside(m, s);
    var i := FirstClose(m, s).value;
    if i > 0 {
      CloseFacts(Step(m, s[0]), s[1..]);
      assert s[..i][1..] == s[1..][..i - 1];
    }
  }

  lemma OneMoreChar(source: string, index: nat)
    requires 1 <= index < |source| && Unclosed(NEUTRAL, source[1..index])
    ensures
      var m := After(NEUTRAL, source[1..index]);
      && After(NEUTRAL, source[1..index + 1]) == Step(m, source[index])
      && (!(source[index] == '/' && m == NEUTRAL) ==> Unclosed(NEUTRAL, source[1..index + 1]))
  {
    var body, c := source[1..index], [source[index]];
    assert source[1..index + 1] == body + c;
    AfterAppend(NEUTRAL, body, c);
    UnclosedAppend(NEUTRAL, body, c);
  }

  lemma ClosedHere(source: string, index: nat)
    requires 1 <= index < |source| && source[index] == '/'
    requires Unclosed(NEUTRAL, source[1..index]) && After(NEUTRAL, source[1..index]) == NEUTRAL
    ensures FirstClose(NEUTRAL, source[1..]) == Some(index - 1)
  {
    assert source[1..] == source[1..index] + "/" + source[index + 1..];
    FirstCloseIs(NEUTRAL, source[1..index], source[index + 1..]);
  }

  method TryParseRegexLiteral(source: string) returns (r: Option<Literal>)
    ensures r == Parse(source)
  {
    if |source| < 2 || source[0] != '/' {
      return None;
    }
    var escaped, inCharacterClass := false, false;
    for index := 1 to |source|
      invariant After(NEUTRAL, source[1..index]) == Mode(escaped, inCharacterClass)
      invariant Unclosed(NEUTRAL, source[1..index])
    {
      var current := source[index];
      OneMoreChar(source, index);
      if escaped {
        escaped := false;
        continue;
      }
      if current == '\\' {
        escaped := true;
        continue;
      }
      if current == '[' {
        inCharacterClass := true;
        continue;
      }
      if current == ']' && inCharacterClass {
        inCharacterClass := false;
        continue;
      }
      if current == '/' && !inCharacterClass {
        ClosedHere(source, index);
        var flags := source[index + 1..];
        if |flags| == 0 {
          return Some(Literal(source[1..index], flags));
        }
        if !ValidFlags(flags) {
          return None;
        }
        return Some(Literal(source[1..index], flags));
      }
    }
    assert source[1..|source|] == source[1..];
    NoClose(NEUTRAL, source[1..]);
    r := None;
  }

  // ---------- Printing and reading back ----------

  function Print(l: Literal): string {
    "/" + l.pattern + "/" + l.flags
  }

  /** What survives printing and scanning. */
  predicate Printable(l: Literal) {
    Unclosed(NEUTRAL, l.pattern) && After(NEUTRAL, l.pattern) == NEUTRAL && ValidFlags(l.flags)
  }

  /** Every literal the scanner accepts prints to the very text it came from. */
  lemma ParsedReprints(source: string)
    requires Parse(source).Some?
    ensures Print(Parse(source).value) == source && Printable(Parse(source).value)
  {
    CloseFacts(NEUTRAL, source[1..]);
    var i := FirstClose(NEUTRAL, source[1..]).value;
    assert source[1..][..i] == source[1..i + 1];
    assert source == "/" + source[1..i + 1] + "/" + source[i + 2..];
  }

  lemma PrintedParses(l: Literal)
    requires Printable(l)
    ensures Parse(Print(l)) == Some(l)
  {
    var s := Print(l);
    assert s[1..] == l.pattern + "/" + l.flags;
    FirstCloseIs(NEUTRAL, l.pattern, l.flags);
    assert s[1..|l.pattern| + 1] == l.pattern && s[|l.pattern| + 2..] == l.flags;
  }

  /** Scanning undoes printing on exactly the printable literals. */
  lemma RoundTripIff(l: Literal)
    ensures Parse(Print(l)) == Some(l) <==> Printable(l)
  {
    if Printable(l) {
      PrintedParses(l);
    }
    if Parse(Print(l)) == Some(l) {
      ParsedReprints(Print(l));
    }
  }

  function ToPatternSource(pattern: PatternInput): string {
    match pattern
    case Regex(source, flags) => Print(Literal(source, flags))
    case Text(text) => text
  }

  function ParsePatternSource(source: string): Literal {
    match Parse(source)
    case Some(l) => l
    case None => Literal(source, "")
  }

  /** An authored pattern keeps its meaning through compilation; a text keeps it exactly when it does not look like a
      literal. */
  lemma AuthoredPatternSurvives(pattern: PatternInput)
    ensures pattern.Regex? && Printable(Literal(pattern.source, pattern.flags)) ==>
              ParsePatternSource(ToPatternSource(pattern)) == Literal(pattern.source, pattern.flags)
    ensures pattern.Text? ==>
              (ParsePatternSource(ToPatternSource(pattern)) == Literal(pattern.text, "") <==> Parse(pattern.text).None?)
  {
    match pattern
    case Regex(source, flags) =>
      if Printable(Literal(source, flags)) {
        PrintedParses(Literal(source, flags));
      }
    case Text(text) =>
      if Parse(text).Some? {
        ParsedReprints(text);
      }
  }

  // ---------- The grammar ----------

  /** RegularExpressionChar of section 12.9.5 of ECMA-262. */
  datatype Element = Plain(c: char) | Escape(c: char) | Class(items: seq<Item>)

  datatype Item = PlainItem(c: char) | EscapeItem(c: char)

  predicate WellFormedItem(i: Item) {
    i.PlainItem? ==> i.c != '\\' && i.c != ']'
  }

  predicate WellFormedElement(e: Element) {
    match e
    case Plain(c) => c != '\\' && c != '/' && c != '['
    case Escape(_) => true
    case Class(items) => forall i | 0 <= i < |items| :: WellFormedItem(items[i])
  }

  predicate WellFormed(es: seq<Element>) {
    forall i | 0 <= i < |es| :: WellFormedElement(es[i])
  }

  function ItemText(i: Item): string {
    match i
    case PlainItem(c) => [c]
    case EscapeItem(c) => ['\\', c]
  }

  function ItemsText(items: seq<Item>): string {
    if items == [] then "" else ItemText(items[0]) + ItemsText(items[1..])
  }

  function ElementText(e: Element): string {
    match e
    case Plain(c) => [c]
    case Escape(c) => ['\\', c]
    case Class(items) => "[" + ItemsText(items) + "]"
  }

  function BodyText(es: seq<Element>): string {
    if es == [] then "" else ElementText(es[0]) + BodyText(es[1..])
  }

  /** `s` takes the scanner from `m` to `n` without a closing slash. */
  predicate Moves(m: Mode, s: string, n: Mode) {
    Unclosed(m, s) && After(m, s) == n
  }

  lemma MovesChain(m: Mode, s: string, t: string, n: Mode)
    requires Unclosed(m, s)
    ensures Moves(m, s + t, n) <==> Moves(After(m, s), t, n)
  {
    AfterAppend(m, s, t);
    UnclosedAppend(m, s, t);
  }

  const IN_CLASS := Mode(false, true)

  lemma OneChar(m: Mode, c: char)
    requires !(c == '/' && m == NEUTRAL)
    ensures Moves(m, [c], Step(m, c))
  {
    assert [c][1..] == "";
  }

  lemma TwoChars(m: Mode, c: char)
    requires m == NEUTRAL || m == IN_CLASS
    ensures Moves(m, ['\\', c], m)
  {
    OneChar(m, '\\');
    OneChar(Step(m, '\\'), c);
    MovesChain(m, ['\\'], [c], m);
    assert ['\\'] + [c] == ['\\', c];
  }

  lemma {:induction false} ItemsStayInside(items: seq<Item>)
    requires forall i | 0 <= i < |items| :: WellFormedItem(items[i])
    ensures Moves(IN_CLASS, ItemsText(items), IN_CLASS)
  {
    if items != [] {
      ItemsStayInside(items[1..]);
      var first := ItemText(items[0]);
      match items[0] {
        case PlainItem(c) => OneChar(IN_CLASS, c);
        case EscapeItem(c) => TwoChars(IN_CLASS, c);
      }
      MovesChain(IN_CLASS, first, ItemsText(items[1..]), IN_CLASS);
    }
  }

  lemma ElementReturns(e: Element)
    requires WellFormedElement(e)
    ensures Moves(NEUTRAL, ElementText(e), NEUTRAL)
  {
    match e
    case Plain(c) => OneChar(NEUTRAL, c);
    case Escape(c) => TwoChars(NEUTRAL, c);
    case Class(items) =>
      var inner := ItemsText(items);
      OneChar(NEUTRAL, '[');
      ItemsStayInside(items);
      OneChar(IN_CLASS, ']');
      MovesChain(NEUTRAL, "[", inner, IN_CLASS);
      MovesChain(NEUTRAL, "[" + inner, "]", NEUTRAL);
  }

  lemma {:induction false} BodyReturns(es: seq<Element>)
    requires WellFormed(es)
    ensures Moves(NEUTRAL, BodyText(es), NEUTRAL)
  {
    if es != [] {
      ElementReturns(es[0]);
      BodyReturns(es[1..]);
      MovesChain(NEUTRAL, ElementText(es[0]), BodyText(es[1..]), NEUTRAL);
    }
  }

  /** An escape at the front is complete, and what follows it starts where the escape did. */
  lemma EscapeGoesOn(m: Mode, s: string)
    requires m == NEUTRAL || m == IN_CLASS
    requires s != "" && s[0] == '\\' && Moves(m, s, NEUTRAL)
    ensures |s| >= 2 && Moves(m, s[2..], NEUTRAL)
  {
    assert After(m, "\\") == Mode(true, m.inClass);
    assert |s| == 1 ==> s == "\\";
    assert s == ['\\', s[1]] + s[2..];
    TwoChars(m, s[1]);
    MovesChain(m, ['\\', s[1]], s[2..], NEUTRAL);
  }

  lemma {:induction false} ReadItems(s: string) returns (items: seq<Item>, rest: string)
    requires Moves(IN_CLASS, s, NEUTRAL)
    ensures forall i | 0 <= i < |items| :: WellFormedItem(items[i])
    ensures s == ItemsText(items) + "]" + rest && Moves(NEUTRAL, rest, NEUTRAL)
    decreases |s|
  {
    if s[0] == ']' {
      items, rest := [], s[1..];
    } else if s[0] == '\\' {
      EscapeGoesOn(IN_CLASS, s);
      var tail;
      tail, rest := ReadItems(s[2..]);
      items := [EscapeItem(s[1])] + tail;
      assert items[1..] == tail;
    } else {
      var tail;
      tail, rest := ReadItems(s[1..]);
      items := [PlainItem(s[0])] + tail;
      assert items[1..] == tail;
    }
  }

  lemma {:induction false} ReadBody(s: string) returns (es: seq<Element>)
    requires Moves(NEUTRAL, s, NEUTRAL)
    ensures WellFormed(es) && BodyText(es) == s
    decreases |s|
  {
    if s == "" {
      es := [];
    } else if s[0] == '\\' {
      EscapeGoesOn(NEUTRAL, s);
      var tail := ReadBody(s[2..]);
      es := [Escape(s[1])] + tail;
      assert es[1..] == tail;
    } else if s[0] == '[' {
      var items, rest := ReadItems(s[1..]);
      var tail := ReadBody(rest);
      es := [Class(items)] + tail;
      assert es[1..] == tail;
    } else {
      var tail := ReadBody(s[1..]);
      es := [Plain(s[0])] + tail;
      assert es[1..] == tail;
    }
  }

  /** The scanner accepts exactly the bodies of the grammar. */
  lemma ScannerIsGrammar(body: string)
    ensures Unclosed(NEUTRAL, body) && After(NEUTRAL, body) == NEUTRAL <==>
            exists es :: WellFormed(es) && BodyText(es) == body
  {
    if Moves(NEUTRAL, body, NEUTRAL) {
      var es := ReadBody(body);
    }
    if es :| WellFormed(es) && BodyText(es) == body {
      BodyReturns(es);
    }
  }

  /** A text is a literal exactly if it is a body of the grammar between slashes with allowed flags behind it; then it
      is parsed into just these two. */
  lemma ParsesIff(source: string, l: Literal)
    ensures Parse(source) == Some(l) <==>
            && source == "/" + l.pattern + "/" + l.flags
            && (exists es :: WellFormed(es) && BodyText(es) == l.pattern)
            && forall c | c in l.flags :: c in {'d', 'g', 'i', 'm', 's', 'u', 'v', 'y'}
  {
    ScannerIsGrammar(l.pattern);
    AllowedFlags(l.flags);
    if Parse(source) == Some(l) {
      ParsedReprints(source);
    }
    if source == Print(l) && Printable(l) {
      PrintedParses(l);
    }
  }

  lemma AllowedFlags(flags: string)
    ensures ValidFlags(flags) <==> forall c | c in flags :: c in {'d', 'g', 'i', 'm', 's', 'u', 'v', 'y'}
  {
    forall c: char
      ensures c in "dgimsuvy" <==> c in {'d', 'g', 'i', 'm', 's', 'u', 'v', 'y'}
    {
      var all := "dgimsuvy";
      assert all[0] == 'd' && all[1] == 'g' && all[2] == 'i' && all[3] == 'm';
      assert all[4] == 's' && all[5] == 'u' && all[6] == 'v' && all[7] == 'y';
    }
    if ValidFlags(flags) {
      forall c | c in flags
        ensures c in "dgimsuvy"
      {
        var i :| 0 <= i < |flags| && flags[i] == c;
      }
    } else {
      var i :| 0 <= i < |flags| && flags[i] !in "dgimsuvy";
      assert flags[i] in flags;
    }
  }
}
