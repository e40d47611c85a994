// JSON texts as RFC 8259 spells them, and what the scanner makes of a log of them.
module JsonText {
  import opened Common
  import opened JsonScanner

  // A character of a string (section 7): itself, a two-character escape, or \uXXXX.
  datatype StringChar = Raw(c: char) | Short(c: char) | Hex(digits: string)

  // A value (sections 3 to 7) together with the whitespace it was printed with.
  datatype Value =
    | Scalar(text: string)
    | Text(chars: seq<StringChar>)
    | Array(pad: string, items: seq<Padded>)
    | Object(pad: string, members: seq<Member>)

  datatype Padded = Padded(before: string, value: Value, after: string)

  datatype Member = Member(before: string, key: seq<StringChar>, after: string, item: Padded)

  predicate Blank(text: string) {
    forall c :: c in text ==> c == ' ' || c == '\t' || c == '\n' || c == '\r'
  }

  predicate HexDigit(c: char) {
    '0' <= c <= '9' || 'a' <= c <= 'f' || 'A' <= c <= 'F'
  }

  predicate LegalChar(ch: StringChar) {
    match ch
    case Raw(c) => c >= ' ' && c != '"' && c != '\\'
    case Short(c) => c in "\"\\/bfnrt"
    case Hex(digits) => |digits| == 4 && forall c :: c in digits ==> HexDigit(c)
  }

  predicate LegalString(chars: seq<StringChar>) {
    forall ch :: ch in chars ==> LegalChar(ch)
  }

  // true, false, null, or the characters of a number.
  predicate LegalScalar(text: string) {
    text in {"true", "false", "null"} || forall c :: c in text ==> c in "+-.0123456789eE"
  }

  predicate Legal(v: Value) {
    match v
    case Scalar(text) => LegalScalar(text)
    case Text(chars) => LegalString(chars)
    case Array(pad, items) => Blank(pad) && forall x :: x in items ==> LegalPadded(x)
    case Object(pad, members) => Blank(pad) && forall m :: m in members ==> LegalMember(m)
  }

  predicate LegalPadded(x: Padded) {
    Blank(x.before) && Blank(x.after) && Legal(x.value)
  }

  predicate LegalMember(m: Member) {
    Blank(m.before) && LegalString(m.key) && Blank(m.after) && LegalPadded(m.item)
  }

  // ---------------------------------------------------------------- printing

  function PrintChar(ch: StringChar): string {
    match ch
    case Raw(c) => [c]
    case Short(c) => ['\\', c]
    case Hex(digits) => "\\u" + digits
  }

  function PrintChars(chars: seq<StringChar>): string {
    if chars == [] then "" else PrintChars(chars[..|chars| - 1]) + PrintChar(chars[|chars| - 1])
  }

  function PrintString(chars: seq<StringChar>): string {
    "\"" + PrintChars(chars) + "\""
  }

  function Print(v: Value): string
    decreases v, 0
  {
    match v
    case Scalar(text) => text
    case Text(chars) => PrintString(chars)
    case Array(pad, items) => "[" + pad + PrintItems(items) + "]"
    case Object(pad, members) => "{" + pad + PrintMembers(members) + "}"
  }

  function PrintPadded(x: Padded): string
    decreases x, 0
  {
    x.before + Print(x.value) + x.after
  }

  function PrintItems(items: seq<Padded>): string
    decreases items, 1
  {
    if items == [] then ""
    else
      var last := items[|items| - 1];
      (if |items| == 1 then "" else PrintItems(items[..|items| - 1]) + ",") + PrintPadded(last)
  }

  function PrintMember(m: Member): string
    decreases m, 0
  {
    m.before + PrintString(m.key) + m.after + ":" + PrintPadded(m.item)
  }

  function PrintMembers(members: seq<Member>): string
    decreases members, 1
  {
    if members == [] then ""
    else
      var last := members[|members| - 1];
      (if |members| == 1 then "" else PrintMembers(members[..|members| - 1]) + ",") + PrintMember(last)
  }

  // ---------------------------------------------------------------- inside a document

  // Inside a document, outside a string.
  ghost predicate Between(s: Scan) {
    s.depth > 0 && !s.inString && !s.escaped
  }

  predicate Plain(text: string) {
    forall c :: c in text ==> c != '"' && c != '{' && c != '}'
  }

  // Reading the text from s, at whatever index, leaves the scanner in s.
  ghost predicate Passes(s: Scan, text: string) {
    forall i: nat :: Run(s, i, text) == s
  }

  lemma PassesConcat(s: Scan, a: string, b: string)
    requires Passes(s, a) && Passes(s, b)
    ensures Passes(s, a + b)
  {
    forall i: nat ensures Run(s, i, a + b) == s {
      RunConcat(s, i, a, b);
    }
  }

  lemma OneChar(s: Scan, i: nat, c: char)
    ensures Run(s, i, [c]) == Step(s, i, c)
  {
    assert [c][..0] == "";
  }

  // Text none of whose characters moves the scanner.
  lemma {:induction false} CharactersPass(s: Scan, text: string)
    requires forall c, i: nat :: c in text ==> Step(s, i, c) == s
    ensures Passes(s, text)
  {
    if text != "" {
      var front, last := text[..|text| - 1], [text[|text| - 1]];
      assert last[0] in text && text == front + last;
      CharactersPass(s, front);
      forall i: nat ensures Run(s, i, last) == s {
        OneChar(s, i, last[0]);
      }
      PassesConcat(s, front, last);
    }
  }

  lemma PlainPasses(s: Scan, text: string)
    requires !s.inString && Plain(text)
    ensures Passes(s, text)
  {
    CharactersPass(s, text);
  }

  lemma CharPasses(s: Scan, ch: StringChar)
    requires s.inString && !s.escaped && LegalChar(ch)
    ensures Passes(s, PrintChar(ch))
  {
    match ch
    case Raw(c) =>
      CharactersPass(s, [c]);
    case Short(c) =>
      EscapePasses(s, c);
    case Hex(digits) =>
      EscapePasses(s, 'u');
      CharactersPass(s, digits);
      PassesConcat(s, "\\u", digits);
  }

  // A backslash and the character it escapes.
  lemma EscapePasses(s: Scan, c: char)
    requires s.inString && !s.escaped
    ensures Passes(s, ['\\', c])
  {
    forall i: nat ensures Run(s, i, ['\\', c]) == s {
      assert ['\\', c] == ['\\'] + [c];
      RunConcat(s, i, ['\\'], [c]);
      OneChar(s, i, '\\');
      OneChar(s.(escaped := true), i + 1, c);
    }
  }

  lemma {:induction false} CharsPass(s: Scan, chars: seq<StringChar>)
    requires s.inString && !s.escaped && LegalString(chars)
    ensures Passes(s, PrintChars(chars))
  {
    if chars != [] {
      var front, last := chars[..|chars| - 1], chars[|chars| - 1];
      assert last in chars;
      CharsPass(s, front);
      CharPasses(s, last);
      PassesConcat(s, PrintChars(front), PrintChar(last));
    }
  }

  // Whatever stands inside a string, the scanner is back where it was after its closing quote.
  lemma StringPasses(s: Scan, chars: seq<StringChar>)
    requires !s.inString && !s.escaped && LegalString(chars)
    ensures Passes(s, PrintString(chars))
  {
    var inner, quoted := PrintChars(chars), s.(inString := true);
    CharsPass(quoted, chars);
    forall i: nat ensures Run(s, i, PrintString(chars)) == s {
      RunConcat(s, i, "\"" + inner, "\"");
      RunConcat(s, i, "\"", inner);
      OneChar(s, i, '"');
      OneChar(quoted, i + 1 + |inner|, '"');
    }
  }

  // A value printed inside a document leaves the scanner as it was, whatever it nests.
  lemma {:induction false} ValuePasses(s: Scan, v: Value)
    requires Between(s) && Legal(v)
    ensures Passes(s, Print(v))
    decreases v, 0
  {
    match v
    case Scalar(text) =>
      PlainPasses(s, text);
    case Text(chars) =>
      StringPasses(s, chars);
    case Array(pad, items) =>
      ItemsPass(s, items);
      ArrayPasses(s, v);
    case Object(pad, members) =>
      MembersPass(s.(depth := s.depth + 1), members);
      ObjectPasses(s, v);
  }

  // An object's text up to, not including, its closing brace.
  function Body(v: Value): string
    requires v.Object?
  {
    "{" + v.pad + PrintMembers(v.members)
  }

  // The scanner inside an object that began at index i.
  function Opened(s: Scan, i: nat): Scan {
    s.(depth := s.depth + 1, start := if s.depth == 0 then i else s.start)
  }

  lemma BodyOpens(s: Scan, i: nat, v: Value)
    requires v.Object? && !s.inString
    requires Passes(Opened(s, i), v.pad) && Passes(Opened(s, i), PrintMembers(v.members))
    ensures Run(s, i, Body(v)) == Opened(s, i)
  {
    RunConcat(s, i, "{" + v.pad, PrintMembers(v.members));
    RunConcat(s, i, "{", v.pad);
    OneChar(s, i, '{');
  }

  lemma ClosingBrace(s: Scan, i: nat, v: Value)
    requires v.Object? && Run(s, i, Body(v)) == Opened(s, i)
    ensures Run(s, i, Print(v)) == Step(Opened(s, i), i + |Print(v)| - 1, '}')
  {
    RunConcat(s, i, Body(v), "}");
    OneChar(Opened(s, i), i + |Body(v)|, '}');
  }

  lemma ObjectPasses(s: Scan, v: Value)
    requires v.Object? && Between(s) && Blank(v.pad) && Passes(s.(depth := s.depth + 1), PrintMembers(v.members))
    ensures Passes(s, Print(v))
  {
    PlainPasses(s.(depth := s.depth + 1), v.pad);
    forall i: nat ensures Run(s, i, Print(v)) == s {
      BodyOpens(s, i, v);
      ClosingBrace(s, i, v);
    }
  }

  lemma ArrayPasses(s: Scan, v: Value)
    requires v.Array? && Between(s) && Blank(v.pad) && Passes(s, PrintItems(v.items))
    ensures Passes(s, Print(v))
  {
    PlainPasses(s, "[" + v.pad);
    PlainPasses(s, "]");
    PassesConcat(s, "[" + v.pad, PrintItems(v.items));
    PassesConcat(s, "[" + v.pad + PrintItems(v.items), "]");
  }

  lemma {:induction false} PaddedPasses(s: Scan, x: Padded)
    requires Between(s) && LegalPadded(x)
    ensures Passes(s, PrintPadded(x))
    decreases x, 0
  {
    PlainPasses(s, x.before);
    ValuePasses(s, x.value);
    PlainPasses(s, x.after);
    PassesConcat(s, x.before, Print(x.value));
    PassesConcat(s, x.before + Print(x.value), x.after);
  }

  lemma {:induction false} ItemsPass(s: Scan, items: seq<Padded>)
    requires Between(s) && forall x :: x in items ==> LegalPadded(x)
    ensures Passes(s, PrintItems(items))
    decreases items, 1
  {
    if items != [] {
      var front, last := items[..|items| - 1], items[|items| - 1];
      assert last in items;
      PaddedPasses(s, last);
      if |items| > 1 {
        ItemsPass(s, front);
        PlainPasses(s, ",");
        PassesConcat(s, PrintItems(front), ",");
        PassesConcat(s, PrintItems(front) + ",", PrintPadded(last));
      } else {
        assert PrintItems(items) == PrintPadded(last);
      }
    }
  }

  lemma {:induction false} MemberPasses(s: Scan, m: Member)
    requires Between(s) && LegalMember(m)
    ensures Passes(s, PrintMember(m))
    decreases m, 0
  {
    var key := PrintString(m.key);
    PlainPasses(s, m.before);
    StringPasses(s, m.key);
    PassesConcat(s, m.before, key);
    PlainPasses(s, m.after);
    PassesConcat(s, m.before + key, m.after);
    PlainPasses(s, ":");
    PassesConcat(s, m.before + key + m.after, ":");
    PaddedPasses(s, m.item);
    PassesConcat(s, m.before + key + m.after + ":", PrintPadded(m.item));
  }

  lemma {:induction false} MembersPass(s: Scan, members: seq<Member>)
    requires Between(s) && forall m :: m in members ==> LegalMember(m)
    ensures Passes(s, PrintMembers(members))
    decreases members, 1
  {
    if members != [] {
      var front, last := members[..|members| - 1], members[|members| - 1];
      assert last in members;
      MemberPasses(s, last);
      if |members| > 1 {
        MembersPass(s, front);
        PlainPasses(s, ",");
        PassesConcat(s, PrintMembers(front), ",");
        PassesConcat(s, PrintMembers(front) + ",", PrintMember(last));
      } else {
        assert PrintMembers(members) == PrintMember(last);
      }
    }
  }

  // ---------------------------------------------------------------- a log of documents

  // Between documents, outside a string.
  ghost predicate Outside(s: Scan) {
    s.depth == 0 && s.start == -1 && !s.inString && !s.escaped
  }

  // Text between documents: anything but a quote or an opening brace.
  predicate Separator(text: string) {
    forall c :: c in text ==> c != '"' && c != '{'
  }

  lemma SeparatorPasses(s: Scan, text: string)
    requires Outside(s) && Separator(text)
    ensures Passes(s, text)
  {
    CharactersPass(s, text);
  }

  lemma BodyRead(s: Scan, i: nat, doc: Value)
    requires Outside(s) && doc.Object? && Legal(doc)
    ensures Run(s, i, Body(doc)) == Opened(s, i)
  {
    PlainPasses(Opened(s, i), doc.pad);
    MembersPass(Opened(s, i), doc.members);
    BodyOpens(s, i, doc);
  }

  // A document between documents adds exactly its own span.
  lemma DocumentFound(s: Scan, i: nat, doc: Value)
    requires Outside(s) && doc.Object? && Legal(doc)
    ensures Run(s, i, Print(doc)) == s.(spans := s.spans + [Span(i, i + |Print(doc)|)])
  {
    BodyRead(s, i, doc);
    ClosingBrace(s, i, doc);
  }

  datatype Entry = Entry(separator: string, doc: Value)

  predicate LegalLog(log: seq<Entry>) {
    forall e :: e in log ==> Separator(e.separator) && e.doc.Object? && Legal(e.doc)
  }

  function Render(log: seq<Entry>): string {
    if log == [] then ""
    else Render(log[..|log| - 1]) + log[|log| - 1].separator + Print(log[|log| - 1].doc)
  }

  function Prints(log: seq<Entry>): seq<string> {
    Map(log, (e: Entry) => Print(e.doc))
  }

  // Where the next document starts, and what has been found before it.
  ghost predicate Found(log: seq<Entry>) {
    var s := Read(Render(log));
    Outside(s) && Inside(s, |Render(log)|) && Slices(Render(log), s.spans) == Prints(log)
  }

  lemma SeparatorRead(text: string, separator: string)
    requires Outside(Read(text)) && Separator(separator)
    ensures Read(text + separator) == Read(text)
  {
    ReadConcat(text, separator);
    SeparatorPasses(Read(text), separator);
  }

  lemma EntryRead(text: string, separator: string, doc: Value)
    requires Outside(Read(text)) && Separator(separator) && doc.Object? && Legal(doc)
    ensures var s, first := Read(text), |text + separator|;
      Read(text + separator + Print(doc)) == s.(spans := s.spans + [Span(first, first + |Print(doc)|)])
  {
    SeparatorRead(text, separator);
    DocumentFound(Read(text), |text + separator|, doc);
    ReadConcat(text + separator, Print(doc));
  }

  lemma EntrySlices(text: string, e: Entry, spans: seq<Span>)
    requires forall k :: 0 <= k < |spans| ==> spans[k].first < spans[k].end <= |text|
    ensures var first := |text + e.separator|;
      Slices(text + e.separator + Print(e.doc), spans + [Span(first, first + |Print(e.doc)|)])
      == Slices(text, spans) + [Print(e.doc)]
  {
    var whole, first := text + e.separator + Print(e.doc), |text + e.separator|;
    var span := Span(first, first + |Print(e.doc)|);
    SlicesConcat(whole, spans, [span]);
    assert whole == text + (e.separator + Print(e.doc));
    SlicesKept(text, e.separator + Print(e.doc), spans);
    assert whole[first..first + |Print(e.doc)|] == Print(e.doc);
  }

  lemma LogFoundStep(front: seq<Entry>, e: Entry)
    requires Found(front) && LegalLog([e])
    ensures Found(front + [e])
  {
    assert (front + [e])[..|front|] == front;
    assert e in [e];
    EntryFound(Render(front), e);
    assert Prints(front + [e]) == Prints(front) + [Print(e.doc)];
  }

  lemma EntryFound(text: string, e: Entry)
    requires Outside(Read(text)) && Inside(Read(text), |text|)
    requires Separator(e.separator) && e.doc.Object? && Legal(e.doc)
    ensures var longer := text + e.separator + Print(e.doc);
      && Outside(Read(longer)) && Inside(Read(longer), |longer|)
      && Slices(longer, Read(longer).spans) == Slices(text, Read(text).spans) + [Print(e.doc)]
  {
    EntryRead(text, e.separator, e.doc);
    EntrySlices(text, e, Read(text).spans);
    ReadInside(text + e.separator + Print(e.doc));
  }

  lemma {:induction false} LogFound(log: seq<Entry>)
    requires LegalLog(log)
    ensures Found(log)
  {
    if log != [] {
      var front, e := log[..|log| - 1], log[|log| - 1];
      assert e in log && log == front + [e];
      LogFound(front);
      LogFoundStep(front, e);
    }
  }

  // A document cut off before its closing brace is not found, wherever it is cut.
  lemma TruncatedNotFound(s: Scan, i: nat, doc: Value, k: nat)
    requires Outside(s) && doc.Object? && Legal(doc) && k < |Print(doc)|
    ensures Run(s, i, Print(doc)[..k]).spans == s.spans
  {
    var body := Body(doc);
    assert Print(doc)[..k] == body[..k] && body == body[..k] + body[k..];
    RunConcat(s, i, body[..k], body[k..]);
    BodyRead(s, i, doc);
    RunGrows(s, i, body[..k]);
    RunGrows(Run(s, i, body[..k]), i + k, body[k..]);
  }

  lemma TailRead(text: string, separator: string, open: Value, k: nat)
    requires Outside(Read(text)) && Separator(separator)
    requires open.Object? && Legal(open) && k < |Print(open)|
    ensures Read(text + separator + Print(open)[..k]).spans == Read(text).spans
  {
    SeparatorRead(text, separator);
    TruncatedNotFound(Read(text), |text + separator|, open, k);
    ReadConcat(text + separator, Print(open)[..k]);
  }

  // The scanner returns exactly the documents of a log, in order, and nothing of the one still
  // being written: braces, quotes and backslashes inside strings never shift a boundary.
  lemma ScannerRoundTrip<T>(log: seq<Entry>, separator: string, open: Value, k: nat, loads: string -> Option<T>)
    requires LegalLog(log) && Separator(separator) && open.Object? && Legal(open) && k < |Print(open)|
    ensures Documents(Render(log) + separator + Print(open)[..k], loads) == LoadAll(Prints(log), loads)
  {
    var text, tail := Render(log), separator + Print(open)[..k];
    LogFound(log);
    TailRead(text, separator, open, k);
    assert text + separator + Print(open)[..k] == text + tail;
    SlicesKept(text, tail, Read(text).spans);
  }

  lemma {:induction false} AllLoad<T>(slices: seq<string>, loads: string -> Option<T>)
    requires forall x :: x in slices ==> loads(x).Some?
    ensures |LoadAll(slices, loads)| == |slices|
    ensures forall i :: 0 <= i < |slices| ==> Some(LoadAll(slices, loads)[i]) == loads(slices[i])
  {
    if slices != [] {
      assert slices[|slices| - 1] in slices;
      AllLoad(slices[..|slices| - 1], loads);
    }
  }

  // When json.loads accepts every printed document, the result is what it made of each.
  lemma LoggedDocumentsReturned<T>(log: seq<Entry>, separator: string, open: Value, k: nat, loads: string -> Option<T>)
    requires LegalLog(log) && Separator(separator) && open.Object? && Legal(open) && k < |Print(open)|
    requires forall e :: e in log ==> loads(Print(e.doc)).Some?
    ensures var docs := Documents(Render(log) + separator + Print(open)[..k], loads);
      |docs| == |log| && forall i :: 0 <= i < |log| ==> Some(docs[i]) == loads(Print(log[i].doc))
  {
    ScannerRoundTrip(log, separator, open, k, loads);
    forall x | x in Prints(log) ensures loads(x).Some? {
      var i :| 0 <= i < |log| && Prints(log)[i] == x;
      assert log[i] in log;
    }
    AllLoad(Prints(log), loads);
  }

  // ---------------------------------------------------------------- a document cut off in the middle

  // The closing braces of a text.
  function Closers(text: string): nat {
    if text == "" then 0 else Closers(text[..|text| - 1]) + if text[|text| - 1] == '}' then 1 else 0
  }

  // The braces still open after a text that has no quote and opens none.
  function Left(depth: nat, text: string): nat {
    if Closers(text) >= depth then 0 else depth - Closers(text)
  }

  // Outside a string, with that many braces open.
  ghost predicate OpenBy(s: Scan, depth: nat) {
    && s.depth == depth && !s.inString && !s.escaped
    && (depth > 0 ==> s.start >= 0) && (depth == 0 ==> s.start == -1)
  }

  // What a separator closes of an open document: one span is found when nothing is left open.
  ghost predicate ClosedBy(s: Scan, t: Scan, depth: nat, text: string) {
    && OpenBy(t, Left(depth, text))
    && (Left(depth, text) > 0 ==> t == s.(depth := Left(depth, text)))
    && (Left(depth, text) == 0 ==>
          && s.spans <= t.spans && |t.spans| == |s.spans| + if depth > 0 then 1 else 0)
  }

  lemma {:induction false} SeparatorCloses(s: Scan, i: nat, depth: nat, text: string)
    requires OpenBy(s, depth) && Separator(text)
    ensures ClosedBy(s, Run(s, i, text), depth, text)
  {
    if text != "" {
      var front := text[..|text| - 1];
      SeparatorFront(text);
      SeparatorCloses(s, i, depth, front);
      CloserStep(s, Run(s, i, front), i + |front|, depth, text);
    }
  }

  lemma SeparatorFront(text: string)
    requires text != "" && Separator(text)
    ensures Separator(text[..|text| - 1]) && text[|text| - 1] != '"' && text[|text| - 1] != '{'
  {
    var front := text[..|text| - 1];
    forall c | c in front ensures c != '"' && c != '{' {
      var j :| 0 <= j < |front| && front[j] == c;
      assert text[j] in text;
    }
    assert text[|text| - 1] in text;
  }

  lemma CloserStep(s: Scan, t: Scan, i: nat, depth: nat, text: string)
    requires text != "" && text[|text| - 1] != '"' && text[|text| - 1] != '{' && OpenBy(s, depth)
    requires ClosedBy(s, t, depth, text[..|text| - 1])
    ensures ClosedBy(s, Step(t, i, text[|text| - 1]), depth, text)
  {
  }

  // What remains open after each entry of a later log, and the entries read with nothing open.
  function Remaining(depth: nat, log: seq<Entry>): nat {
    if log == [] then depth else Left(Remaining(depth, log[..|log| - 1]), log[|log| - 1].separator)
  }

  function Returned(depth: nat, log: seq<Entry>): seq<Entry> {
    if log == [] then []
    else
      Returned(depth, log[..|log| - 1])
      + if Remaining(depth, log) == 0 then [log[|log| - 1]] else []
  }

  // Later documents are all returned exactly when the text between them and the cut closes every
  // brace that the cut left open.
  lemma {:induction false} AllReturnedIff(depth: nat, log: seq<Entry>)
    ensures |Returned(depth, log)| <= |log|
    ensures Returned(depth, log) == log <==> log == [] || Closers(log[0].separator) >= depth
    ensures log != [] && Closers(log[0].separator) >= depth ==> Remaining(depth, log) == 0
  {
    if |log| > 1 {
      var front := log[..|log| - 1];
      AllReturnedIff(depth, front);
      assert log == front + [log[|log| - 1]] && front[0] == log[0];
    } else if |log| == 1 {
      assert log[..0] == [] && Remaining(depth, log[..0]) == depth && Returned(depth, log[..0]) == [];
      assert log == [log[0]];
    }
  }

  // Reading the later log after a text: what was found stays, then at most one span that is no
  // document, then the entries returned.
  ghost predicate FoundAfter(text: string, whole: string, depth: nat, log: seq<Entry>, junk: seq<string>) {
    && OpenBy(Read(whole), Remaining(depth, log)) && Inside(Read(whole), |whole|)
    && |junk| == (if depth > 0 && Remaining(depth, log) == 0 then 1 else 0)
    && Slices(whole, Read(whole).spans) == Slices(text, Read(text).spans) + junk + Prints(Returned(depth, log))
  }

  lemma SeparatorFound(text: string, depth: nat, separator: string) returns (junk: seq<string>)
    requires OpenBy(Read(text), depth) && Inside(Read(text), |text|) && Separator(separator)
    ensures OpenBy(Read(text + separator), Left(depth, separator))
    ensures Inside(Read(text + separator), |text + separator|)
    ensures |junk| == if depth > 0 && Left(depth, separator) == 0 then 1 else 0
    ensures Slices(text + separator, Read(text + separator).spans) == Slices(text, Read(text).spans) + junk
  {
    var s, t := Read(text), Read(text + separator);
    ReadConcat(text, separator);
    SeparatorCloses(s, |text|, depth, separator);
    ReadInside(text + separator);
    var more := t.spans[|s.spans|..];
    assert t.spans == s.spans + more;
    SlicesConcat(text + separator, s.spans, more);
    SlicesKept(text, separator, s.spans);
    junk := Slices(text + separator, more);
  }

  // A complete document read inside an open one is part of it.
  lemma DocumentSwallowed(text: string, depth: nat, doc: Value)
    requires OpenBy(Read(text), depth) && depth > 0 && Inside(Read(text), |text|) && Legal(doc)
    ensures Read(text + Print(doc)) == Read(text) && Inside(Read(text), |text + Print(doc)|)
    ensures Slices(text + Print(doc), Read(text).spans) == Slices(text, Read(text).spans)
  {
    ReadConcat(text, Print(doc));
    ValuePasses(Read(text), doc);
    SlicesKept(text, Print(doc), Read(text).spans);
  }

  lemma DocumentReturned(text: string, doc: Value)
    requires OpenBy(Read(text), 0) && Inside(Read(text), |text|) && doc.Object? && Legal(doc)
    ensures OpenBy(Read(text + Print(doc)), 0) && Inside(Read(text + Print(doc)), |text + Print(doc)|)
    ensures Slices(text + Print(doc), Read(text + Print(doc)).spans) == Slices(text, Read(text).spans) + [Print(doc)]
  {
    EntryFound(text, Entry("", doc));
    assert text + "" == text;
  }

  lemma PrintsSnoc(log: seq<Entry>, e: Entry)
    ensures Prints(log + [e]) == Prints(log) + [Print(e.doc)]
  {
  }

  // One entry more of the later log.
  lemma FoundAfterStep(text: string, whole: string, depth: nat, front: seq<Entry>, e: Entry, junk: seq<string>)
    returns (now: seq<string>)
    requires FoundAfter(text, whole, depth, front, junk)
    requires Separator(e.separator) && e.doc.Object? && Legal(e.doc)
    requires Remaining(depth, front) > 0 ==> Returned(depth, front) == []
    ensures FoundAfter(text, whole + e.separator + Print(e.doc), depth, front + [e], now)
    ensures Remaining(depth, front + [e]) > 0 ==> Returned(depth, front + [e]) == []
  {
    var open, between := Remaining(depth, front), whole + e.separator;
    assert (front + [e])[..|front|] == front;
    var closed := SeparatorFound(whole, open, e.separator);
    now := junk + closed;
    RemainingAtMost(depth, front);
    if Left(open, e.separator) > 0 {
      DocumentSwallowed(between, Left(open, e.separator), e.doc);
      assert junk == [] && closed == [];
      assert Returned(depth, front) == [] && Returned(depth, front + [e]) == [] && Prints([]) == [];
    } else {
      DocumentReturned(between, e.doc);
      PrintsSnoc(Returned(depth, front), e);
      FoundJoin(Slices(text, Read(text).spans), junk, Prints(Returned(depth, front)), closed, Print(e.doc));
    }
  }

  lemma {:induction false} RemainingAtMost(depth: nat, log: seq<Entry>)
    ensures Remaining(depth, log) <= depth
  {
    if log != [] {
      RemainingAtMost(depth, log[..|log| - 1]);
    }
  }

  lemma FoundJoin(a: seq<string>, junk: seq<string>, found: seq<string>, closed: seq<string>, last: string)
    requires found == [] || closed == []
    ensures a + junk + found + closed + [last] == a + (junk + closed) + (found + [last])
  {
  }

  lemma {:induction false} LaterFound(text: string, depth: nat, log: seq<Entry>) returns (junk: seq<string>)
    requires OpenBy(Read(text), depth) && Inside(Read(text), |text|) && LegalLog(log)
    ensures FoundAfter(text, text + Render(log), depth, log, junk)
    ensures Remaining(depth, log) > 0 ==> Returned(depth, log) == []
  {
    if log == [] {
      junk := [];
      assert text + Render(log) == text && Prints([]) == [];
    } else {
      var front, e := log[..|log| - 1], log[|log| - 1];
      assert e in log && log == front + [e];
      junk := LaterFound(text, depth, front);
      junk := FoundAfterStep(text, text + Render(front), depth, front, e, junk);
      RenderAfter(text, front, e);
    }
  }

  lemma RenderAfter(text: string, front: seq<Entry>, e: Entry)
    ensures text + Render(front + [e]) == text + Render(front) + e.separator + Print(e.doc)
  {
    assert (front + [e])[..|front|] == front;
  }

  // Braces and strings are read alike wherever the text stands.
  ghost predicate Alike(s: Scan, t: Scan) {
    && s.depth == t.depth && s.inString == t.inString && s.escaped == t.escaped
    && (s.depth > 0 ==> s.start >= 0 && t.start >= 0)
  }

  lemma {:induction false} RunAlike(s: Scan, i: nat, t: Scan, j: nat, text: string)
    requires Alike(s, t)
    ensures Alike(Run(s, i, text), Run(t, j, text))
  {
    if text != "" {
      RunAlike(s, i, t, j, text[..|text| - 1]);
    }
  }

  // Only in a string is a character escaped.
  lemma {:induction false} NothingEscaped(s: Scan, i: nat, text: string)
    requires !s.inString ==> !s.escaped
    ensures !Run(s, i, text).inString ==> !Run(s, i, text).escaped
  {
    if text != "" {
      NothingEscaped(s, i, text[..|text| - 1]);
    }
  }

  // A log, then the document that was cut off.
  function CutLog(log: seq<Entry>, separator: string, open: Value, k: nat): string
    requires k <= |Print(open)|
  {
    Render(log) + separator + Print(open)[..k]
  }

  lemma CutRead(log: seq<Entry>, separator: string, open: Value, k: nat)
    requires LegalLog(log) && Separator(separator) && open.Object? && Legal(open) && k < |Print(open)|
    ensures var text := CutLog(log, separator, open, k);
      && Alike(Read(text), Read(Print(open)[..k])) && Inside(Read(text), |text|)
      && (!Read(text).inString ==> !Read(text).escaped)
      && Slices(text, Read(text).spans) == Prints(log)
  {
    var text := CutLog(log, separator, open, k);
    LogFound(log);
    CutAlike(Render(log), separator, Print(open)[..k]);
    NothingEscaped(BEGIN, 0, text);
    ReadInside(text);
    TailRead(Render(log), separator, open, k);
    CutSlices(Render(log), separator, Print(open)[..k]);
  }

  lemma CutAlike(text: string, separator: string, cut: string)
    requires Outside(Read(text)) && Separator(separator)
    ensures Alike(Read(text + separator + cut), Read(cut))
  {
    SeparatorRead(text, separator);
    ReadConcat(text + separator, cut);
    RunAlike(Read(text), |text + separator|, BEGIN, 0, cut);
  }

  lemma CutSlices(text: string, separator: string, cut: string)
    requires Inside(Read(text), |text|)
    ensures Slices(text + separator + cut, Read(text).spans) == Slices(text, Read(text).spans)
  {
    ConcatAssociates(text, separator, cut);
    SlicesKept(text, separator + cut, Read(text).spans);
  }

  // A document cut off between strings in the middle of a log: what came before is returned; of
  // what comes after, the documents read once the open braces are closed, and before them at
  // most one piece of text that parses by accident.
  lemma CutInMiddle<T>(log: seq<Entry>, separator: string, open: Value, k: nat, later: seq<Entry>,
                       loads: string -> Option<T>) returns (junk: seq<T>)
    requires LegalLog(log) && LegalLog(later) && Separator(separator)
    requires open.Object? && Legal(open) && k < |Print(open)| && !Read(Print(open)[..k]).inString
    ensures var depth := Read(Print(open)[..k]).depth;
      && |junk| <= (if depth > 0 && Remaining(depth, later) == 0 then 1 else 0)
      && Documents(CutLog(log, separator, open, k) + Render(later), loads)
         == LoadAll(Prints(log), loads) + junk + LoadAll(Prints(Returned(depth, later)), loads)
  {
    var depth, text := Read(Print(open)[..k]).depth, CutLog(log, separator, open, k);
    CutRead(log, separator, open, k);
    var spurious := LaterFound(text, depth, later);
    junk := LoadAll(spurious, loads);
    LoadsAtMost(spurious, loads);
    LoadAllConcat(Prints(log) + spurious, Prints(Returned(depth, later)), loads);
    LoadAllConcat(Prints(log), spurious, loads);
  }

  lemma {:induction false} LoadsAtMost<T>(slices: seq<string>, loads: string -> Option<T>)
    ensures |LoadAll(slices, loads)| <= |slices|
  {
    if slices != [] {
      LoadsAtMost(slices[..|slices| - 1], loads);
    }
  }

  // Once a brace is open, closing it all finds a span.
  lemma {:induction false} OpenUntilFound(s: Scan, i: nat, text: string)
    requires Inside(s, i) && s.depth > 0 && Run(s, i, text).depth == 0
    ensures |s.spans| < |Run(s, i, text).spans|
  {
    var front := text[..|text| - 1];
    RunInside(s, i, front);
    if Run(s, i, front).depth == 0 {
      OpenUntilFound(s, i, front);
    } else {
      RunGrows(s, i, front);
    }
  }

  // A document that was cut off anywhere after its first character is left open.
  lemma CutLeavesOpen(open: Value, k: nat)
    requires open.Object? && Legal(open) && k < |Print(open)|
    ensures Read(Print(open)[..k]).depth > 0 <==> k > 0
  {
    var text := Print(open)[..k];
    if k > 0 {
      TruncatedNotFound(BEGIN, 0, open, k);
      assert text == ['{'] + text[1..];
      RunConcat(BEGIN, 0, ['{'], text[1..]);
      OneChar(BEGIN, 0, '{');
      if Read(text).depth == 0 {
        OpenUntilFound(Run(BEGIN, 0, ['{']), 1, text[1..]);
      }
    }
  }

  // Text whose strings hold no brace and no quote of their own, and that has no backslash outside
  // a string.
  ghost predicate CalmAt(text: string, j: nat)
    requires j < |text|
  {
    if Read(text[..j]).inString
    then text[j] != '{' && text[j] != '}' && (text[j] == '"' ==> !Read(text[..j]).escaped)
    else text[j] != '\\'
  }

  ghost predicate Calm(text: string) {
    forall j: nat {:trigger CalmAt(text, j)} :: j < |text| ==> CalmAt(text, j)
  }

  lemma CalmFront(text: string)
    requires text != "" && Calm(text)
    ensures Calm(text[..|text| - 1]) && CalmAt(text, |text| - 1)
  {
    var front := text[..|text| - 1];
    forall j: nat | j < |front| ensures CalmAt(front, j) {
      assert CalmAt(text, j) && front[..j] == text[..j];
    }
    assert CalmAt(text, |text| - 1);
  }

  // Read from inside a string, calm text is inside out: nothing is opened, closed or found.
  lemma {:induction false} InsideOut(s: Scan, i: nat, text: string)
    requires s.inString && Calm(text) && (s.escaped ==> text == "" || text[0] != '"')
    ensures var t := Run(s, i, text);
      && t.depth == s.depth && t.start == s.start && t.spans == s.spans
      && t.inString == !Read(text).inString
      && (t.escaped ==> text == "" && s.escaped)
  {
    if text != "" {
      CalmFront(text);
      InsideOut(s, i, text[..|text| - 1]);
      NothingEscaped(BEGIN, 0, text[..|text| - 1]);
    }
  }

  // A document cut off inside a string: of calm text after it, nothing is returned.
  lemma CutInString<T>(log: seq<Entry>, separator: string, open: Value, k: nat, more: string,
                       loads: string -> Option<T>)
    requires LegalLog(log) && Separator(separator)
    requires open.Object? && Legal(open) && k < |Print(open)| && Read(Print(open)[..k]).inString
    requires Calm(more) && (more == "" || more[0] != '"')
    ensures Documents(CutLog(log, separator, open, k) + more, loads) == LoadAll(Prints(log), loads)
  {
    var text := CutLog(log, separator, open, k);
    CutRead(log, separator, open, k);
    ReadConcat(text, more);
    InsideOut(Read(text), |text|, more);
    SlicesKept(text, more, Read(text).spans);
  }
}
