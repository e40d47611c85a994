// A structured [Unreleased] section written out as lines, and what reading it gives.
module ChangelogRendering {
  import opened Changelog
  import opened Common
  import opened LineText
  import opened TextOps

  // An entry's lines, each a list of words: the bullet's own line and its continuations.
  datatype Item = Item(bullet: seq<string>, more: seq<seq<string>>)

  datatype Subsection = Subsection(title: string, items: seq<Item>)

  datatype Package = Package(name: string, items: seq<Item>, subsections: seq<Subsection>)

  // ---------------------------------------------------------------- the page

  function Indented(words: seq<string>): string {
    "  " + Join(words, " ")
  }

  function ItemLines(item: Item): seq<string> {
    ["- " + Join(item.bullet, " ")] + Map(item.more, Indented)
  }

  function ItemsLines(items: seq<Item>): seq<string> {
    Collect(items, ItemLines)
  }

  function SubsectionLines(s: Subsection): seq<string> {
    ["#### " + s.title, ""] + ItemsLines(s.items) + [""]
  }

  function PackageLines(p: Package): seq<string> {
    ["### " + p.name, ""] + ItemsLines(p.items) + [""] + Collect(p.subsections, SubsectionLines)
  }

  function Page(packages: seq<Package>): seq<string> {
    [UNRELEASED, ""] + Collect(packages, PackageLines)
  }

  // ---------------------------------------------------------------- the entries it should give

  // An item at index at of the file, under its labels.
  datatype Placed = Placed(item: Item, package: string, subsection: string, at: nat)

  // The entry of a placed item: its words, one blank between.
  function EntryOf(x: Placed): Entry {
    Entry(x.at + 1, x.package, x.subsection, Join(["-"] + x.item.bullet + Collect(x.item.more, Line()), " "))
  }

  function Line(): seq<string> -> seq<string> {
    (l: seq<string>) => l
  }

  function PlacedItems(items: seq<Item>, package: string, subsection: string, at: nat): seq<Placed> {
    if items == [] then []
    else
      var front, last := items[..|items| - 1], items[|items| - 1];
      PlacedItems(front, package, subsection, at) + [Placed(last, package, subsection, at + |ItemsLines(front)|)]
  }

  function PlacedSubsections(subs: seq<Subsection>, package: string, at: nat): seq<Placed> {
    if subs == [] then []
    else
      var front, last := subs[..|subs| - 1], subs[|subs| - 1];
      PlacedSubsections(front, package, at)
      + PlacedItems(last.items, package, last.title, at + |Collect(front, SubsectionLines)| + 2)
  }

  function PlacedPackage(p: Package, at: nat): seq<Placed> {
    PlacedItems(p.items, p.name, "", at + 2)
    + PlacedSubsections(p.subsections, p.name, at + 2 + |ItemsLines(p.items)| + 1)
  }

  function PlacedPackages(packages: seq<Package>, at: nat): seq<Placed> {
    if packages == [] then []
    else
      var front, last := packages[..|packages| - 1], packages[|packages| - 1];
      PlacedPackages(front, at) + PlacedPackage(last, at + |Collect(front, PackageLines)|)
  }

  // ---------------------------------------------------------------- what may be written

  predicate IsWord(w: string) {
    w != "" && forall c :: c in w ==> !IsSpace(c)
  }

  predicate AreWords(ws: seq<string>) {
    forall w :: w in ws ==> IsWord(w)
  }

  ghost predicate ProperMore(more: seq<seq<string>>) {
    forall l :: l in more ==> l != [] && AreWords(l)
  }

  ghost predicate ProperItem(item: Item) {
    AreWords(item.bullet) && ProperMore(item.more)
  }

  ghost predicate ProperItems(items: seq<Item>) {
    forall item :: item in items ==> ProperItem(item)
  }

  ghost predicate ProperSubsections(subs: seq<Subsection>) {
    forall s :: s in subs ==> Tight(s.title) && ProperItems(s.items)
  }

  ghost predicate ProperPackage(p: Package) {
    Tight(p.name) && ProperItems(p.items) && ProperSubsections(p.subsections)
  }

  ghost predicate ProperPackages(packages: seq<Package>) {
    forall p :: p in packages ==> ProperPackage(p)
  }

  // ---------------------------------------------------------------- words

  // One more character: a blank ends the last word, any other starts or extends it.
  function Longer(ws: seq<string>, extend: bool, c: char): seq<string> {
    if extend && ws != [] then ws[..|ws| - 1] + [ws[|ws| - 1] + [c]] else ws + [[c]]
  }

  predicate EndsBlack(text: string) {
    text != "" && !IsSpace(text[|text| - 1])
  }

  lemma WordsSnoc(text: string, c: char)
    ensures Words(text + [c]) == if IsSpace(c) then Words(text) else Longer(Words(text), EndsBlack(text), c)
  {
    assert (text + [c])[..|text|] == text;
    if text != "" {
      assert (text + [c])[|text| - 1] == text[|text| - 1];
    }
  }

  lemma {:induction false} EndsBlackHasWords(text: string)
    ensures EndsBlack(text) ==> Words(text) != []
  {
  }

  lemma LongerConcat(a: seq<string>, b: seq<string>, extend: bool, c: char)
    requires extend ==> b != []
    ensures Longer(a + b, extend, c) == a + Longer(b, extend, c)
  {
  }

  lemma EndsBlackAfter(a: string, b: string)
    ensures EndsBlack(a + " " + b) == EndsBlack(b)
  {
  }

  lemma WordsConcatStep(a: string, b: string, c: char)
    requires Words(a + " " + b) == Words(a) + Words(b)
    ensures Words(a + " " + b + [c]) == Words(a) + Words(b + [c])
  {
    WordsSnoc(a + " " + b, c);
    WordsSnoc(b, c);
    EndsBlackAfter(a, b);
    EndsBlackHasWords(b);
    LongerConcat(Words(a), Words(b), EndsBlack(b), c);
  }

  lemma WordsConcatEmpty(a: string)
    ensures Words(a + " " + "") == Words(a)
  {
    WordsSnoc(a, ' ');
    assert a + " " + "" == a + [' '];
  }

  lemma LastApart(a: string, b: string)
    requires b != ""
    ensures a + " " + b == a + " " + b[..|b| - 1] + [b[|b| - 1]]
    ensures b == b[..|b| - 1] + [b[|b| - 1]]
  {
  }

  lemma {:induction false} WordsConcat(a: string, b: string)
    ensures Words(a + " " + b) == Words(a) + Words(b)
  {
    if b == "" {
      WordsConcatEmpty(a);
    } else {
      WordsConcat(a, b[..|b| - 1]);
      WordsConcatStep(a, b[..|b| - 1], b[|b| - 1]);
      LastApart(a, b);
    }
  }

  lemma {:induction false} WordsOfWord(w: string)
    requires IsWord(w)
    ensures Words(w) == [w]
  {
    assert w[|w| - 1] in w;
    var front := w[..|w| - 1];
    assert w == front + [w[|w| - 1]];
    if front != "" {
      forall c | c in front ensures !IsSpace(c) {
        assert c in w;
      }
      WordsOfWord(front);
      assert w[|w| - 2] in w;
    } else {
      assert Words("") == [];
    }
  }

  lemma WordsFront(ws: seq<string>)
    requires ws != [] && AreWords(ws)
    ensures AreWords(ws[..|ws| - 1]) && IsWord(ws[|ws| - 1])
    ensures ws == ws[..|ws| - 1] + [ws[|ws| - 1]]
  {
    assert ws[|ws| - 1] in ws;
  }

  lemma {:induction false} WordsOfJoin(ws: seq<string>)
    requires AreWords(ws)
    ensures Words(Join(ws, " ")) == ws
  {
    if ws != [] {
      var front, last := ws[..|ws| - 1], ws[|ws| - 1];
      WordsFront(ws);
      WordsOfWord(last);
      if front != [] {
        WordsOfJoin(front);
        WordsConcat(Join(front, " "), last);
      }
    }
  }

  // The words of joined lines are the lines' words, in order.
  lemma {:induction false} WordsOfLines(lines: seq<string>)
    ensures Words(Join(lines, " ")) == Collect(lines, Words)
  {
    if lines != [] {
      var front, last := lines[..|lines| - 1], lines[|lines| - 1];
      if front != [] {
        WordsOfLines(front);
        WordsConcat(Join(front, " "), last);
      } else {
        assert Collect(front, Words) == [];
        assert lines == [last];
      }
    }
  }

  lemma WordsUnder(prefix: string, words: seq<string>)
    requires AreWords(words)
    ensures Words(prefix + " " + Join(words, " ")) == Words(prefix) + words
  {
    WordsConcat(prefix, Join(words, " "));
    WordsOfJoin(words);
  }

  // ---------------------------------------------------------------- the reader, line after line

  // The state after the first n lines, the first of them at index at.
  function ReadOn(s: Section, lines: seq<string>, at: nat, n: nat): Section
    requires n <= |lines|
  {
    if n == 0 then s else Step(ReadOn(s, lines, at, n - 1), lines[n - 1], at + n - 1)
  }

  function Process(s: Section, lines: seq<string>, at: nat): Section {
    ReadOn(s, lines, at, |lines|)
  }

  lemma {:induction false} ReadOnFront(s: Section, a: seq<string>, b: seq<string>, at: nat, n: nat)
    requires n <= |a|
    ensures ReadOn(s, a + b, at, n) == ReadOn(s, a, at, n)
  {
    if n > 0 {
      ReadOnFront(s, a, b, at, n - 1);
    }
  }

  lemma {:induction false} ReadOnBack(s: Section, a: seq<string>, b: seq<string>, at: nat, n: nat)
    requires n <= |b|
    ensures ReadOn(s, a + b, at, |a| + n) == ReadOn(Process(s, a, at), b, at + |a|, n)
  {
    if n > 0 {
      ReadOnBack(s, a, b, at, n - 1);
    } else {
      ReadOnFront(s, a, b, at, |a|);
    }
  }

  lemma ProcessConcat(s: Section, a: seq<string>, b: seq<string>, at: nat)
    ensures Process(s, a + b, at) == Process(Process(s, a, at), b, at + |a|)
  {
    ReadOnBack(s, a, b, at, |b|);
  }

  lemma {:induction false} RangeIsReadOn(lines: seq<string>, a: nat, b: nat, n: nat)
    requires a <= a + n <= b <= |lines|
    ensures ReadRange(lines, a, a + n) == ReadOn(BEGIN, lines[a..b], a, n)
    decreases n
  {
    if n > 0 {
      RangeIsReadOn(lines, a, b, n - 1);
    }
  }

  lemma RangeIsProcess(lines: seq<string>, a: nat, b: nat)
    requires a <= b <= |lines|
    ensures ReadRange(lines, a, b) == Process(BEGIN, lines[a..b], a)
  {
    RangeIsReadOn(lines, a, b, b - a);
    assert |lines[a..b]| == b - a;
  }

  lemma ProcessOne(s: Section, line: string, at: nat)
    ensures Process(s, [line], at) == Step(s, line, at)
  {
    assert ReadOn(s, [line], at, 0) == s;
  }

  // What a stretch of lines needs to know of the labels in force before it, and leaves after it.
  datatype Labels = Any | In(package: string) | Under(package: string, subsection: string)

  function BlockOf(x: Placed): Block {
    Block(x.at + 1, x.package, x.subsection, ItemLines(x.item))
  }

  // Once what is open is flushed, the labels are these and the blocks those.
  ghost predicate At(s: Section, labels: Labels, blocks: seq<Block>) {
    && Flush(s).blocks == blocks
    && (labels.Any? || Flush(s).package == labels.package)
    && (labels.Under? ==> Flush(s).subsection == labels.subsection)
  }

  ghost predicate Leaves(s: Section, lines: seq<string>, at: nat, after: Labels,
                         blocks: seq<Block>, added: seq<Block>)
  {
    At(Process(s, lines, at), after, blocks + added)
  }

  // Reading the lines from index at adds these blocks, whatever was read before.
  ghost predicate Adds(lines: seq<string>, at: nat, labels: Labels, after: Labels, added: seq<Block>) {
    forall s, blocks {:trigger Leaves(s, lines, at, after, blocks, added)} ::
      At(s, labels, blocks) ==> Leaves(s, lines, at, after, blocks, added)
  }

  lemma Then(a: seq<string>, b: seq<string>, at: nat, labels: Labels, middle: Labels, after: Labels,
             x: seq<Block>, y: seq<Block>)
    requires Adds(a, at, labels, middle, x) && Adds(b, at + |a|, middle, after, y)
    ensures Adds(a + b, at, labels, after, x + y)
  {
    forall s, blocks | At(s, labels, blocks) ensures Leaves(s, a + b, at, after, blocks, x + y) {
      ProcessConcat(s, a, b, at);
      assert Leaves(s, a, at, middle, blocks, x);
      assert Leaves(Process(s, a, at), b, at + |a|, after, blocks + x, y);
      ConcatAssociates(blocks, x, y);
    }
  }

  // A stretch, then one that adds nothing; nothing, then a stretch.
  lemma ThenNothing(a: seq<string>, b: seq<string>, at: nat, labels: Labels, middle: Labels, after: Labels,
                    x: seq<Block>)
    requires Adds(a, at, labels, middle, x) && Adds(b, at + |a|, middle, after, [])
    ensures Adds(a + b, at, labels, after, x)
  {
    Then(a, b, at, labels, middle, after, x, []);
    assert x + [] == x;
  }

  lemma NothingThen(a: seq<string>, b: seq<string>, at: nat, labels: Labels, middle: Labels, after: Labels,
                    y: seq<Block>)
    requires Adds(a, at, labels, middle, []) && Adds(b, at + |a|, middle, after, y)
    ensures Adds(a + b, at, labels, after, y)
  {
    Then(a, b, at, labels, middle, after, [], y);
    assert [] + y == y;
  }

  ghost predicate Looser(labels: Labels, than: Labels) {
    labels.Any? || labels == than || (labels.In? && than.Under? && labels.package == than.package)
  }

  lemma Loosen(lines: seq<string>, at: nat, labels: Labels, after: Labels, added: seq<Block>,
               stricter: Labels, looser: Labels)
    requires Adds(lines, at, labels, after, added) && Looser(labels, stricter) && Looser(looser, after)
    ensures Adds(lines, at, stricter, looser, added)
  {
    forall s, blocks | At(s, stricter, blocks) ensures Leaves(s, lines, at, looser, blocks, added) {
      assert At(s, labels, blocks);
      assert Leaves(s, lines, at, after, blocks, added);
    }
  }

  lemma NothingRead(at: nat, labels: Labels)
    ensures Adds([], at, labels, labels, [])
  {
    forall s, blocks | At(s, labels, blocks) ensures Leaves(s, [], at, labels, blocks, []) {
      assert blocks + [] == blocks;
    }
  }

  lemma BlankRead(at: nat, labels: Labels)
    ensures Adds([""], at, labels, labels, [])
  {
    forall s, blocks | At(s, labels, blocks) ensures Leaves(s, [""], at, labels, blocks, []) {
      ProcessOne(s, "", at);
      assert blocks + [] == blocks;
    }
  }

  // ---------------------------------------------------------------- one item

  lemma {:induction false} StripKeepsBlack(text: string, i: nat)
    requires i < |text| && !IsSpace(text[i])
    ensures Strip(text) != ""
  {
    if IsSpace(text[0]) {
      StripKeepsBlack(text[1..], i - 1);
    } else {
      RightStripKeepsHead(text);
    }
  }

  lemma {:induction false} JoinHasBlack(words: seq<string>) returns (i: nat)
    requires words != [] && AreWords(words)
    ensures i < |Join(words, " ")| && !IsSpace(Join(words, " ")[i])
  {
    var last := words[|words| - 1];
    assert last in words;
    assert last[|last| - 1] in last;
    i := |Join(words, " ")| - 1;
  }

  lemma IndentedIsIndented(words: seq<string>)
    requires words != [] && AreWords(words)
    ensures IsIndented(Indented(words)) && !IsBullet(Indented(words))
  {
    var i := JoinHasBlack(words);
    assert Indented(words)[i + 2] == Join(words, " ")[i];
    StripKeepsBlack(Indented(words), i + 2);
    LineKinds(Indented(words));
  }

  lemma ProperFront(more: seq<seq<string>>)
    requires more != [] && ProperMore(more)
    ensures ProperMore(more[..|more| - 1]) && more[|more| - 1] != [] && AreWords(more[|more| - 1])
    ensures Map(more, Indented) == Map(more[..|more| - 1], Indented) + [Indented(more[|more| - 1])]
  {
    var front, last := more[..|more| - 1], more[|more| - 1];
    assert more == front + [last];
    assert last in more && forall l :: l in front ==> l in more;
    assert Map(more, Indented) == Map(front, Indented) + [Indented(last)];
  }

  lemma MoreStep(s: Section, lines: seq<string>, words: seq<string>, at: nat)
    requires s.current != [] && words != [] && AreWords(words)
    requires Process(s, lines, at) == s.(current := s.current + lines)
    ensures Process(s, lines + [Indented(words)], at) == s.(current := s.current + (lines + [Indented(words)]))
  {
    ProcessConcat(s, lines, [Indented(words)], at);
    ProcessOne(Process(s, lines, at), Indented(words), at + |lines|);
    IndentedIsIndented(words);
    assert s.current + lines + [Indented(words)] == s.current + (lines + [Indented(words)]);
  }

  lemma {:induction false} MoreRead(s: Section, more: seq<seq<string>>, at: nat)
    requires s.current != [] && ProperMore(more)
    ensures Process(s, Map(more, Indented), at) == s.(current := s.current + Map(more, Indented))
  {
    if more == [] {
      assert s.current + Map(more, Indented) == s.current;
    } else {
      ProperFront(more);
      MoreRead(s, more[..|more| - 1], at);
      MoreStep(s, Map(more[..|more| - 1], Indented), more[|more| - 1], at);
    }
  }

  lemma IndentedWords(words: seq<string>)
    requires AreWords(words)
    ensures Words(Indented(words)) == words
  {
    WordsUnder(" ", words);
    assert " " + " " + Join(words, " ") == Indented(words);
    WordsSnoc("", ' ');
    assert "" + [' '] == " ";
  }

  lemma {:induction false} WordsOfMore(more: seq<seq<string>>)
    requires ProperMore(more)
    ensures Collect(Map(more, Indented), Words) == Collect(more, Line())
  {
    if more != [] {
      ProperFront(more);
      WordsOfMore(more[..|more| - 1]);
      IndentedWords(more[|more| - 1]);
      CollectSnoc(Map(more[..|more| - 1], Indented), Indented(more[|more| - 1]), Words);
    }
  }

  lemma BulletWords(words: seq<string>)
    requires AreWords(words)
    ensures Words("- " + Join(words, " ")) == ["-"] + words
  {
    WordsUnder("-", words);
    WordsOfWord("-");
    assert "-" + " " + Join(words, " ") == "- " + Join(words, " ");
  }

  lemma {:induction false} CollectHead<T, U>(x: T, s: seq<T>, f: T -> seq<U>)
    ensures Collect([x] + s, f) == f(x) + Collect(s, f)
  {
    if s == [] {
      assert [x] + s == [x] && [x][..0] == [];
    } else {
      CollectHead(x, s[..|s| - 1], f);
      assert ([x] + s)[..|s|] == [x] + s[..|s| - 1];
    }
  }

  lemma ItemText(item: Item)
    requires ProperItem(item)
    ensures Collapse(Join(ItemLines(item), " "))
            == Join(["-"] + item.bullet + Collect(item.more, Line()), " ")
  {
    WordsOfLines(ItemLines(item));
    CollectHead("- " + Join(item.bullet, " "), Map(item.more, Indented), Words);
    BulletWords(item.bullet);
    WordsOfMore(item.more);
  }

  lemma BulletRead(s: Section, text: string, at: nat)
    ensures Process(s, ["- " + text], at) == Flush(s).(current := ["- " + text], first := at)
  {
    ProcessOne(s, "- " + text, at);
    assert ("- " + text)[..2] == "- ";
  }

  lemma ItemRead(item: Item, package: string, subsection: string, at: nat)
    requires ProperItem(item)
    ensures Adds(ItemLines(item), at, Under(package, subsection), Under(package, subsection),
                 Map([Placed(item, package, subsection, at)], BlockOf))
  {
    var added := Map([Placed(item, package, subsection, at)], BlockOf);
    assert added == [Block(at + 1, package, subsection, ItemLines(item))];
    forall s, blocks | At(s, Under(package, subsection), blocks)
      ensures Leaves(s, ItemLines(item), at, Under(package, subsection), blocks, added)
    {
      ItemOpen(s, item, at);
    }
  }

  // What an item leaves open: its lines, over what was flushed before.
  lemma ItemOpen(s: Section, item: Item, at: nat)
    requires ProperItem(item)
    ensures Process(s, ItemLines(item), at) == Flush(s).(current := ItemLines(item), first := at)
  {
    var bullet := "- " + Join(item.bullet, " ");
    ProcessConcat(s, [bullet], Map(item.more, Indented), at);
    BulletRead(s, Join(item.bullet, " "), at);
    MoreRead(Flush(s).(current := [bullet], first := at), item.more, at + 1);
  }

  lemma ItemsFront(items: seq<Item>)
    requires items != [] && ProperItems(items)
    ensures ProperItems(items[..|items| - 1]) && ProperItem(items[|items| - 1])
  {
    assert items[|items| - 1] in items;
  }

  lemma {:induction false} ItemsRead(items: seq<Item>, package: string, subsection: string, at: nat)
    requires ProperItems(items)
    ensures Adds(ItemsLines(items), at, Under(package, subsection), Under(package, subsection),
                 Map(PlacedItems(items, package, subsection, at), BlockOf))
  {
    var labels := Under(package, subsection);
    if items == [] {
      NothingRead(at, labels);
    } else {
      var front, last := items[..|items| - 1], items[|items| - 1];
      ItemsFront(items);
      ItemsRead(front, package, subsection, at);
      var placed, here := PlacedItems(front, package, subsection, at), at + |ItemsLines(front)|;
      ItemRead(last, package, subsection, here);
      Then(ItemsLines(front), ItemLines(last), at, labels, labels, labels,
           Map(placed, BlockOf), Map([Placed(last, package, subsection, here)], BlockOf));
      MapConcat(placed, [Placed(last, package, subsection, here)], BlockOf);
    }
  }

  // ---------------------------------------------------------------- headings and their items

  lemma PackageHeadingRead(name: string, at: nat)
    ensures Adds(["### " + name], at, Any, Under(name, ""), [])
  {
    var line := "### " + name;
    assert line[..4] == "### " && line[4..] == name && line[0] == '#';
    LineKinds(line);
    forall s, blocks | At(s, Any, blocks) ensures Leaves(s, [line], at, Under(name, ""), blocks, []) {
      ProcessOne(s, line, at);
      assert blocks + [] == blocks;
    }
  }

  lemma SubsectionHeadingRead(title: string, package: string, at: nat)
    ensures Adds(["#### " + title], at, In(package), Under(package, title), [])
  {
    var line := "#### " + title;
    assert line[..5] == "#### " && line[5..] == title && line[0] == '#' && line[3] == '#';
    LineKinds(line);
    forall s, blocks | At(s, In(package), blocks)
      ensures Leaves(s, [line], at, Under(package, title), blocks, [])
    {
      ProcessOne(s, line, at);
      assert blocks + [] == blocks;
    }
  }

  // A heading with its own items, blank lines after both.
  lemma BlockRead(heading: string, items: seq<Item>, labels: Labels, package: string, subsection: string, at: nat)
    requires ProperItems(items) && Adds([heading], at, labels, Under(package, subsection), [])
    ensures Adds([heading, ""] + ItemsLines(items) + [""], at, labels, Under(package, subsection),
                 Map(PlacedItems(items, package, subsection, at + 2), BlockOf))
  {
    ItemsRead(items, package, subsection, at + 2);
    Bordered(heading, ItemsLines(items), labels, Under(package, subsection),
             Map(PlacedItems(items, package, subsection, at + 2), BlockOf), at);
  }

  lemma Bordered(heading: string, lines: seq<string>, labels: Labels, own: Labels, added: seq<Block>, at: nat)
    requires Adds([heading], at, labels, own, []) && Adds(lines, at + 2, own, own, added)
    ensures Adds([heading, ""] + lines + [""], at, labels, own, added)
  {
    BlankRead(at + 1, own);
    ThenNothing([heading], [""], at, labels, own, own, []);
    assert [heading] + [""] == [heading, ""];
    NothingThen([heading, ""], lines, at, labels, own, own, added);
    BlankRead(at + 2 + |lines|, own);
    ThenNothing([heading, ""] + lines, [""], at, labels, own, own, added);
  }

  lemma SubsectionRead(sub: Subsection, package: string, at: nat)
    requires ProperItems(sub.items)
    ensures Adds(SubsectionLines(sub), at, In(package), In(package),
                 Map(PlacedItems(sub.items, package, sub.title, at + 2), BlockOf))
  {
    SubsectionHeadingRead(sub.title, package, at);
    BlockRead("#### " + sub.title, sub.items, In(package), package, sub.title, at);
    Loosen(SubsectionLines(sub), at, In(package), Under(package, sub.title),
           Map(PlacedItems(sub.items, package, sub.title, at + 2), BlockOf), In(package), In(package));
  }

  lemma SubsectionsFront(subs: seq<Subsection>)
    requires subs != [] && ProperSubsections(subs)
    ensures ProperSubsections(subs[..|subs| - 1])
    ensures Tight(subs[|subs| - 1].title) && ProperItems(subs[|subs| - 1].items)
  {
    assert subs[|subs| - 1] in subs;
  }

  lemma {:induction false} SubsectionsRead(subs: seq<Subsection>, package: string, at: nat)
    requires ProperSubsections(subs)
    ensures Adds(Collect(subs, SubsectionLines), at, In(package), In(package),
                 Map(PlacedSubsections(subs, package, at), BlockOf))
  {
    var labels := In(package);
    if subs == [] {
      NothingRead(at, labels);
    } else {
      var front, last := subs[..|subs| - 1], subs[|subs| - 1];
      SubsectionsFront(subs);
      SubsectionsRead(front, package, at);
      var lines, placed := Collect(front, SubsectionLines), PlacedSubsections(front, package, at);
      var own := PlacedItems(last.items, package, last.title, at + |lines| + 2);
      SubsectionRead(last, package, at + |lines|);
      Then(lines, SubsectionLines(last), at, labels, labels, labels, Map(placed, BlockOf), Map(own, BlockOf));
      MapConcat(placed, own, BlockOf);
    }
  }

  // A stretch that settles the labels, then one that keeps to its package.
  lemma BlockThen(block: seq<string>, subs: seq<string>, at: nat, package: string, own: seq<Block>, more: seq<Block>)
    requires Adds(block, at, Any, Under(package, ""), own) && Adds(subs, at + |block|, In(package), In(package), more)
    ensures Adds(block + subs, at, Any, Any, own + more)
  {
    Loosen(block, at, Any, Under(package, ""), own, Any, In(package));
    Then(block, subs, at, Any, In(package), In(package), own, more);
    Loosen(block + subs, at, Any, In(package), own + more, Any, Any);
  }

  lemma PackageRead(p: Package, at: nat)
    requires ProperPackage(p)
    ensures Adds(PackageLines(p), at, Any, Any, Map(PlacedPackage(p, at), BlockOf))
  {
    var block := ["### " + p.name, ""] + ItemsLines(p.items) + [""];
    var own, more := PlacedItems(p.items, p.name, "", at + 2), PlacedSubsections(p.subsections, p.name, at + |block|);
    PackageHeadingRead(p.name, at);
    BlockRead("### " + p.name, p.items, Any, p.name, "", at);
    SubsectionsRead(p.subsections, p.name, at + |block|);
    BlockThen(block, Collect(p.subsections, SubsectionLines), at, p.name, Map(own, BlockOf), Map(more, BlockOf));
    MapConcat(own, more, BlockOf);
  }

  lemma PackagesFront(packages: seq<Package>)
    requires packages != [] && ProperPackages(packages)
    ensures ProperPackages(packages[..|packages| - 1]) && ProperPackage(packages[|packages| - 1])
  {
    assert packages[|packages| - 1] in packages;
  }

  lemma {:induction false} PackagesRead(packages: seq<Package>, at: nat)
    requires ProperPackages(packages)
    ensures Adds(Collect(packages, PackageLines), at, Any, Any, Map(PlacedPackages(packages, at), BlockOf))
  {
    if packages == [] {
      NothingRead(at, Any);
    } else {
      var front, last := packages[..|packages| - 1], packages[|packages| - 1];
      PackagesFront(packages);
      PackagesRead(front, at);
      var lines, placed := Collect(front, PackageLines), PlacedPackages(front, at);
      var own := PlacedPackage(last, at + |lines|);
      PackageRead(last, at + |lines|);
      Then(lines, PackageLines(last), at, Any, Any, Any, Map(placed, BlockOf), Map(own, BlockOf));
      MapConcat(placed, own, BlockOf);
    }
  }

  // ---------------------------------------------------------------- finishing

  ghost predicate ProperPlaced(x: Placed) {
    ProperItem(x.item) && Tight(x.package) && Tight(x.subsection)
  }

  ghost predicate AllProper(placed: seq<Placed>) {
    forall x :: x in placed ==> ProperPlaced(x)
  }

  lemma AllProperConcat(a: seq<Placed>, b: seq<Placed>)
    requires AllProper(a) && AllProper(b)
    ensures AllProper(a + b)
  {
  }

  lemma {:induction false} ItemsProper(items: seq<Item>, package: string, subsection: string, at: nat)
    requires ProperItems(items) && Tight(package) && Tight(subsection)
    ensures AllProper(PlacedItems(items, package, subsection, at))
  {
    if items != [] {
      ItemsFront(items);
      ItemsProper(items[..|items| - 1], package, subsection, at);
    }
  }

  lemma {:induction false} SubsectionsProper(subs: seq<Subsection>, package: string, at: nat)
    requires ProperSubsections(subs) && Tight(package)
    ensures AllProper(PlacedSubsections(subs, package, at))
  {
    if subs != [] {
      var front, last := subs[..|subs| - 1], subs[|subs| - 1];
      SubsectionsFront(subs);
      SubsectionsProper(front, package, at);
      ItemsProper(last.items, package, last.title, at + |Collect(front, SubsectionLines)| + 2);
    }
  }

  lemma {:induction false} PackagesProper(packages: seq<Package>, at: nat)
    requires ProperPackages(packages)
    ensures AllProper(PlacedPackages(packages, at))
  {
    if packages != [] {
      var front, last := packages[..|packages| - 1], packages[|packages| - 1];
      PackagesFront(packages);
      PackagesProper(front, at);
      PackageProper(last, at + |Collect(front, PackageLines)|);
      AllProperConcat(PlacedPackages(front, at), PlacedPackage(last, at + |Collect(front, PackageLines)|));
    }
  }

  lemma PackageProper(p: Package, at: nat)
    requires ProperPackage(p)
    ensures AllProper(PlacedPackage(p, at))
  {
    var here := at + 2 + |ItemsLines(p.items)| + 1;
    ItemsProper(p.items, p.name, "", at + 2);
    SubsectionsProper(p.subsections, p.name, here);
    AllProperConcat(PlacedItems(p.items, p.name, "", at + 2), PlacedSubsections(p.subsections, p.name, here));
  }

  // Finishing the block of a placed item gives its entry.
  lemma FinishedItem(x: Placed)
    requires ProperPlaced(x)
    ensures Finish(BlockOf(x)) == EntryOf(x)
  {
    StripTight(x.package);
    StripTight(x.subsection);
    ItemText(x.item);
  }

  lemma FinishedItems(placed: seq<Placed>)
    requires AllProper(placed)
    ensures Map(Map(placed, BlockOf), Finish) == Map(placed, EntryOf)
  {
    forall i | 0 <= i < |placed| ensures Finish(BlockOf(placed[i])) == EntryOf(placed[i]) {
      assert placed[i] in placed;
      FinishedItem(placed[i]);
    }
  }

  // ---------------------------------------------------------------- the section's bounds

  ghost predicate NoRelease(lines: seq<string>) {
    forall l :: l in lines ==> !IsRelease(l)
  }

  lemma NotRelease(text: string)
    ensures !IsRelease("- " + text) && !IsRelease("  " + text) && !IsRelease("### " + text)
    ensures !IsRelease("#### " + text) && !IsRelease("")
  {
    assert ("- " + text)[0] == '-' && ("  " + text)[0] == ' ';
    assert ("### " + text)[2] == '#' && ("#### " + text)[2] == '#';
    assert forall l: string :: IsRelease(l) ==> l[..3][0] == '#' && l[..3][2] == ' ';
  }

  lemma {:induction false} CollectNoRelease<T>(s: seq<T>, f: T -> seq<string>)
    requires forall x :: x in s ==> NoRelease(f(x))
    ensures NoRelease(Collect(s, f))
  {
    forall l | l in Collect(s, f) ensures !IsRelease(l) {
      CollectMember(s, f, l);
    }
  }

  lemma ItemsNoRelease(items: seq<Item>)
    ensures NoRelease(ItemsLines(items))
  {
    forall item | item in items ensures NoRelease(ItemLines(item)) {
      forall l | l in ItemLines(item) ensures !IsRelease(l) {
        if l == "- " + Join(item.bullet, " ") {
          NotRelease(Join(item.bullet, " "));
        } else {
          var i :| 0 <= i < |item.more| && l == Indented(item.more[i]);
          NotRelease(Join(item.more[i], " "));
        }
      }
    }
    CollectNoRelease(items, ItemLines);
  }

  lemma PackagesNoRelease(packages: seq<Package>)
    ensures NoRelease(Collect(packages, PackageLines))
  {
    forall p | p in packages ensures NoRelease(PackageLines(p)) {
      forall sub | sub in p.subsections ensures NoRelease(SubsectionLines(sub)) {
        NotRelease(sub.title);
        ItemsNoRelease(sub.items);
      }
      NotRelease(p.name);
      ItemsNoRelease(p.items);
      CollectNoRelease(p.subsections, SubsectionLines);
    }
    CollectNoRelease(packages, PackageLines);
  }

  lemma BoundsOfPage(before: seq<string>, packages: seq<Package>, after: seq<string>)
    requires forall l :: l in before ==> !StartsWith(l, UNRELEASED)
    requires after == [] || IsRelease(after[0])
    ensures var lines := before + Page(packages) + after;
      && Heading(lines) == |before|
      && SectionEnd(lines) == |before| + |Page(packages)|
  {
    var lines := before + Page(packages) + after;
    var end := |before| + |Page(packages)|;
    assert lines[|before|] == UNRELEASED && StartsWith(UNRELEASED, UNRELEASED);
    forall k | 0 <= k < |before| ensures !StartsWith(lines[k], UNRELEASED) {
      assert lines[k] == before[k];
    }
    PackagesNoRelease(packages);
    NotRelease("");
    forall k | |before| < k < end ensures !IsRelease(lines[k]) {
      assert lines[k] == Page(packages)[k - |before|];
      assert k > |before| + 1 ==> lines[k] == Collect(packages, PackageLines)[k - |before| - 2];
    }
    if after != [] {
      assert lines[end] == after[0];
    }
  }

  lemma SectionOfPage(before: seq<string>, packages: seq<Package>, after: seq<string>)
    requires forall l :: l in before ==> !StartsWith(l, UNRELEASED)
    requires after == [] || IsRelease(after[0])
    ensures var lines := before + Page(packages) + after;
      && Heading(lines) == |before| < |lines|
      && lines[|before| + 1..SectionEnd(lines)] == [""] + Collect(packages, PackageLines)
  {
    BoundsOfPage(before, packages, after);
    MiddleOf(before, Page(packages), after);
    assert Page(packages)[1..] == [""] + Collect(packages, PackageLines);
  }

  lemma MiddleOf<T>(a: seq<T>, b: seq<T>, c: seq<T>)
    requires b != []
    ensures (a + b + c)[|a| + 1..|a| + |b|] == b[1..]
  {
  }

  // The reader's result is what the section's lines, on their own, add.
  lemma SectionAlone(lines: seq<string>, section: seq<string>, at: nat, blocks: seq<Block>)
    requires Heading(lines) < |lines| && Heading(lines) + 1 == at
    requires lines[at..SectionEnd(lines)] == section && Adds(section, at, Any, Any, blocks)
    ensures Unreleased(lines) == (Map(blocks, Finish), Some(at))
  {
    RangeIsProcess(lines, at, SectionEnd(lines));
    assert At(BEGIN, Any, []);
    assert Leaves(BEGIN, section, at, Any, [], blocks);
    assert [] + blocks == blocks;
  }

  // Every structured section, with any text before it that has no such heading and any release
  // after it, reads back: each entry with its line, package, subsection and words.
  lemma PageRoundTrip(before: seq<string>, packages: seq<Package>, after: seq<string>)
    requires ProperPackages(packages)
    requires forall l :: l in before ==> !StartsWith(l, UNRELEASED)
    requires after == [] || IsRelease(after[0])
    ensures Unreleased(before + Page(packages) + after)
            == (Map(PlacedPackages(packages, |before| + 2), EntryOf), Some(|before| + 1))
  {
    var lines, at, body := before + Page(packages) + after, |before| + 1, Collect(packages, PackageLines);
    SectionOfPage(before, packages, after);
    BodyRead(packages, at);
    SectionAlone(lines, [""] + body, at, Map(PlacedPackages(packages, at + 1), BlockOf));
    PackagesFinished(packages, at + 1);
  }

  // The section's lines under its heading, the blank one first.
  lemma BodyRead(packages: seq<Package>, at: nat)
    requires ProperPackages(packages)
    ensures Adds([""] + Collect(packages, PackageLines), at, Any, Any, Map(PlacedPackages(packages, at + 1), BlockOf))
  {
    BlankRead(at, Any);
    PackagesRead(packages, at + 1);
    NothingThen([""], Collect(packages, PackageLines), at, Any, Any, Any,
                Map(PlacedPackages(packages, at + 1), BlockOf));
  }

  lemma PackagesFinished(packages: seq<Package>, at: nat)
    requires ProperPackages(packages)
    ensures Map(Map(PlacedPackages(packages, at), BlockOf), Finish) == Map(PlacedPackages(packages, at), EntryOf)
  {
    PackagesProper(packages, at);
    FinishedItems(PlacedPackages(packages, at));
  }

  // The same for the file as one text, when no line of it holds a line break of its own.
  lemma TextRoundTrip(before: seq<string>, packages: seq<Package>, after: seq<string>)
    requires ProperPackages(packages) && AllUnbroken(before + Page(packages) + after)
    requires forall l :: l in before ==> !StartsWith(l, UNRELEASED)
    requires after == [] || IsRelease(after[0])
    ensures Unreleased(SplitLines(Unlines(before + Page(packages) + after)))
            == (Map(PlacedPackages(packages, |before| + 2), EntryOf), Some(|before| + 1))
  {
    SplitUnlinesIff(before + Page(packages) + after);
    PageRoundTrip(before, packages, after);
  }
}
