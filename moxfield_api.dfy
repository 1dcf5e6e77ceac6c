// The collection service client, reduced to what it does with the data it
// receives: the binder's cards summed per name and ordered with the five
// snow-covered basics last, and a deck's mainboard ordered as text with its
// commanders put in front. The HTTP requests and the JSON decoding are left
// out: the methods take the (quantity, name) pairs the responses carry.

module MoxfieldApi {
  import opened Cards
  import opened PyDict
  import opened Ordering

  /** The basics the library keeps at its end. */
  const SnowCoveredBasics: seq<string> :=
    ["Snow-Covered Forest", "Snow-Covered Island", "Snow-Covered Mountain",
     "Snow-Covered Plains", "Snow-Covered Swamp"]

  /** The sort key of a library line: a group (1 for a snow-covered basic,
      0 otherwise) and the card name. */
  datatype SortKey = SortKey(group: int, name: string)

  function KeyOfName(name: string): SortKey {
    SortKey(if name in SnowCoveredBasics then 1 else 0, name)
  }

  /** `library_sort_key(line)`: the key of the text after the first space;
      None where the line has no space (the function raises IndexError). */
  function LibrarySortKey(line: string): (k: Option<SortKey>)
    ensures k.None? <==> ' ' !in line
    ensures k.Some? ==> (k.value.group == 1 <==> k.value.name in SnowCoveredBasics)
    ensures k.Some? ==> k.value.group == 0 || k.value.group == 1
    ensures k.Some? ==>
              var n := |line| - |k.value.name| - 1;
              0 <= n && line[n] == ' ' && ' ' !in line[..n] && line[n + 1..] == k.value.name
  {
    match SplitFirstSpace(line)
    case None => None
    case Some((head, name)) =>
      assert line == head + " " + name && line[..|head|] == head;
      Some(KeyOfName(name))
  }

  /** The key of a formatted line is the key of its card name: the quantity
      plays no part in the order. */
  lemma LibrarySortKeyOfLine(e: Entry)
    ensures LibrarySortKey(FormatEntry(e)) == Some(KeyOfName(e.name))
  {
    SplitJoin(IntToDecimal(e.qty), e.name);
  }

  /** Python's `<=` on the (group, name) tuple. */
  predicate KeyLe(a: SortKey, b: SortKey) {
    a.group < b.group || (a.group == b.group && StrLe(a.name, b.name))
  }

  /** The order the key puts two lines in; lines without a space never
      reach the sort. */
  predicate LineLe(a: string, b: string) {
    match (LibrarySortKey(a), LibrarySortKey(b))
    case (Some(ka), Some(kb)) => KeyLe(ka, kb)
    case _ => true
  }

  /** The same order on entries, by the key of their names. */
  predicate LibraryLe(a: Entry, b: Entry) {
    KeyLe(KeyOfName(a.name), KeyOfName(b.name))
  }

  lemma LibraryLeTotalPreorder()
    ensures TotalPreorder(LibraryLe)
  {
    forall a, b ensures LibraryLe(a, b) || LibraryLe(b, a) {
      StrLeTotal(a.name, b.name);
    }
    forall a, b, c | LibraryLe(a, b) && LibraryLe(b, c) ensures LibraryLe(a, c) {
      if KeyOfName(a.name).group == KeyOfName(b.name).group == KeyOfName(c.name).group {
        StrLeTrans(a.name, b.name, c.name);
      }
    }
  }

  /** The library order: the same entries, every snow-covered basic after
      every other card, and names ascending within each of the two groups. */
  function SortLibrary(es: seq<Entry>): (r: seq<Entry>)
    ensures multiset(r) == multiset(es)
    ensures forall i, j :: 0 <= i < j < |r| && r[i].name in SnowCoveredBasics ==> r[j].name in SnowCoveredBasics
    ensures forall i, j :: 0 <= i < j < |r| && (r[i].name in SnowCoveredBasics <==> r[j].name in SnowCoveredBasics)
                           ==> StrLe(r[i].name, r[j].name)
  {
    LibraryLeTotalPreorder();
    SortBySorted(es, LibraryLe);
    SortBy(es, LibraryLe)
  }

  lemma {:induction false} FormatAllCons(x: Entry, s: seq<Entry>)
    ensures FormatAll([x] + s) == [FormatEntry(x)] + FormatAll(s)
  {
    var l := FormatAll([x] + s);
    var r := [FormatEntry(x)] + FormatAll(s);
    forall i | 0 <= i < |l| ensures l[i] == r[i] {
      if i > 0 { assert ([x] + s)[i] == s[i - 1]; }
    }
  }

  lemma LineLeOfFormatted(a: Entry, b: Entry)
    ensures LineLe(FormatEntry(a), FormatEntry(b)) == LibraryLe(a, b)
  {
    LibrarySortKeyOfLine(a);
    LibrarySortKeyOfLine(b);
  }

  lemma {:induction false} FormatAllTail(s: seq<Entry>)
    requires s != []
    ensures FormatAll(s)[1..] == FormatAll(s[1..])
  {
    var l := FormatAll(s)[1..];
    var r := FormatAll(s[1..]);
    forall i | 0 <= i < |l| ensures l[i] == r[i] {
      assert s[1..][i] == s[i + 1];
    }
  }

  lemma {:induction false} InsertFormatted(x: Entry, s: seq<Entry>)
    ensures Insert(FormatEntry(x), FormatAll(s), LineLe) == FormatAll(Insert(x, s, LibraryLe))
  {
    var fs := FormatAll(s);
    if s == [] {
      FormatAllCons(x, s);
    } else {
      assert fs[0] == FormatEntry(s[0]);
      LineLeOfFormatted(x, s[0]);
      if LibraryLe(x, s[0]) {
        assert Insert(FormatEntry(x), fs, LineLe) == [FormatEntry(x)] + fs;
        FormatAllCons(x, s);
      } else {
        var rest := Insert(x, s[1..], LibraryLe);
        assert Insert(x, s, LibraryLe) == [s[0]] + rest;
        FormatAllTail(s);
        assert Insert(FormatEntry(x), fs, LineLe) == [fs[0]] + Insert(FormatEntry(x), FormatAll(s[1..]), LineLe);
        InsertFormatted(x, s[1..]);
        FormatAllCons(s[0], rest);
      }
    }
  }

  /** Sorting the formatted lines by the key is sorting the entries by the
      key of their names and then formatting them. */
  lemma {:induction false} SortFormatted(es: seq<Entry>)
    ensures SortBy(FormatAll(es), LineLe) == FormatAll(SortBy(es, LibraryLe))
  {
    if es != [] {
      SortFormatted(es[1..]);
      FormatAllCons(es[0], es[1..]);
      assert [es[0]] + es[1..] == es;
      FormatAllTail(es);
      InsertFormatted(es[0], SortBy(es[1..], LibraryLe));
    }
  }

  /** `get_library` after the pages are fetched: quantities summed per name
      in first-seen order, the lines formatted and sorted by the key. */
  method GetLibrary(binderCards: seq<Entry>) returns (library: seq<string>)
    ensures library == FormatAll(SortLibrary(Entries(AddAll([], binderCards))))
  {
    var cardQuantities: Dict<int> := [];
    var i := 0;
    while i < |binderCards|
      invariant 0 <= i <= |binderCards|
      invariant cardQuantities == AddAll([], binderCards[..i])
    {
      var card := binderCards[i];
      assert binderCards[..i + 1][..i] == binderCards[..i];
      cardQuantities := AddQuantity(cardQuantities, card);
      i := i + 1;
    }
    assert binderCards[..i] == binderCards;
    library := FormatAll(Entries(cardQuantities));
    library := SortBy(library, LineLe);
    SortFormatted(Entries(cardQuantities));
  }

  /** What the library holds: one line per card name in the binder, with the
      summed quantity of that name, and the same total number of cards. */
  lemma LibraryContents(binderCards: seq<Entry>)
    ensures var lib := SortLibrary(Entries(AddAll([], binderCards)));
            && DistinctNames(lib)
            && (forall i :: 0 <= i < |lib| ==> lib[i].qty == QtyOf(binderCards, lib[i].name))
            && (forall name :: Mentions(lib, name) <==> Mentions(binderCards, name))
            && SumQty(lib) == SumQty(binderCards)
  {
    var es := Entries(AddAll([], binderCards));
    var lib := SortLibrary(es);
    AddAllEntries(binderCards);
    DistinctNamesPermutation(es, lib);
    forall i | 0 <= i < |lib| ensures lib[i].qty == QtyOf(binderCards, lib[i].name) {
      assert lib[i] in multiset(es);
    }
    forall name ensures Mentions(lib, name) <==> Mentions(binderCards, name) {
      MentionsPermutation(es, lib, name);
    }
    SumQtyPermutation(es, lib);
  }

  /** The formatted library reads back as the sorted entries. */
  lemma LibraryReadsBack(binderCards: seq<Entry>)
    ensures ParseAll(FormatAll(SortLibrary(Entries(AddAll([], binderCards))))) == Ok(SortLibrary(Entries(AddAll([], binderCards))))
  {
    ParseFormatAll(SortLibrary(Entries(AddAll([], binderCards))));
  }

  /** The mainboard part of `get_deck_list`: one line per card, sorted as
      text. */
  method MainboardLines(mainboard: seq<Entry>) returns (lines: seq<string>)
    ensures lines == SortBy(FormatAll(mainboard), StrLe)
  {
    lines := [];
    for i := 0 to |mainboard|
      invariant lines == FormatAll(mainboard[..i])
    {
      assert mainboard[..i + 1] == mainboard[..i] + [mainboard[i]];
      FormatAllSnoc(mainboard[..i], mainboard[i]);
      lines := lines + [FormatEntry(mainboard[i])];
    }
    assert mainboard[..|mainboard|] == mainboard;
    lines := SortBy(lines, StrLe);
  }

  /** The sorted mainboard holds one line per mainboard card, in ascending
      text order. */
  lemma MainboardSorted(mainboard: seq<Entry>)
    ensures var lines := SortBy(FormatAll(mainboard), StrLe);
            && multiset(lines) == multiset(FormatAll(mainboard))
            && SortedBy(lines, StrLe)
  {
    StrLeTotalPreorder();
    SortBySorted(FormatAll(mainboard), StrLe);
  }

  /** The commander part of `get_deck_list`: `deck_list.insert(i, f"1 {name}")`
      for the i-th commander, which leaves the commanders in front, in their
      order, and the lines already there after them. */
  method InsertCommanders(lines: seq<string>, commanders: seq<string>) returns (deckList: seq<string>)
    ensures |deckList| == |commanders| + |lines|
    ensures forall i :: 0 <= i < |commanders| ==> deckList[i] == "1 " + commanders[i]
    ensures deckList[|commanders|..] == lines
  {
    deckList := lines;
    for i := 0 to |commanders|
      invariant |deckList| == i + |lines|
      invariant forall j :: 0 <= j < i ==> deckList[j] == "1 " + commanders[j]
      invariant deckList[i..] == lines
    {
      deckList := deckList[..i] + ["1 " + commanders[i]] + deckList[i..];
    }
  }

  /** `get_deck_list` after the fetch: the mainboard lines sorted as text,
      then one "1 <name>" line per commander in front, in commander order. */
  method GetDeckList(mainboard: seq<Entry>, commanders: seq<string>) returns (deckList: seq<string>)
    ensures |deckList| == |commanders| + |mainboard|
    ensures forall i :: 0 <= i < |commanders| ==> deckList[i] == FormatEntry(Entry(1, commanders[i]))
    ensures deckList[|commanders|..] == SortBy(FormatAll(mainboard), StrLe)
  {
    var lines := MainboardLines(mainboard);
    deckList := InsertCommanders(lines, commanders);
  }
}
