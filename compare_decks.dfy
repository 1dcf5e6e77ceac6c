// The deck comparison: two deck files read into quantity dicts, then every
// card of either deck sorted into the cards the decks have in common and the
// cards only one of them has, each part printed by name with its total. The
// file reads and the printing are left out: the lines arrive as parameters
// and the parts are returned.

module CompareDecks {
  import opened Lists
  import opened Cards
  import opened PyDict
  import opened Ordering

  // ---------------------------------------------------------------------
  // Reading a deck file
  // ---------------------------------------------------------------------

  /** The lines the comparison reads: those holding a space. */
  function Spaced(lines: seq<string>): seq<string> {
    if lines == [] then []
    else
      var line := lines[|lines| - 1];
      Spaced(lines[..|lines| - 1]) + if ' ' in line then [line] else []
  }

  /** One deck file as the comparison reads it: a line without a space is
      skipped, a quantity that is not an integer stops the command, and a
      later line for a card overwrites an earlier one. */
  function ReadDeck(lines: seq<string>): Result<Dict<int>> {
    if lines == [] then Ok([])
    else
      var line := lines[|lines| - 1];
      match ReadDeck(lines[..|lines| - 1])
      case Malformed(l) => Malformed(l)
      case Ok(d) =>
        match SplitFirstSpace(line)
        case None => Ok(d)
        case Some((quantity, name)) =>
          match ParseInt(quantity)
          case None => Malformed(line)
          case Some(q) => Ok(Put(d, name, q))
  }

  /** Reading a deck is parsing its spaced lines as every other command
      does and assigning each quantity to its name, the last one winning. */
  lemma {:induction false} ReadDeckSpaced(lines: seq<string>)
    ensures ReadDeck(lines) == match ParseAll(Spaced(lines))
                               case Malformed(l) => Malformed(l)
                               case Ok(es) => Ok(AssignAll([], es))
  {
    if lines != [] {
      var init := lines[..|lines| - 1];
      var line := lines[|lines| - 1];
      ReadDeckSpaced(init);
      if ' ' in line {
        var s := Spaced(init) + [line];
        assert Spaced(lines) == s;
        assert s[..|s| - 1] == Spaced(init);
        match ParseAll(Spaced(init))
        case Malformed(l) =>
        case Ok(es) =>
          var (quantity, name) := SplitFirstSpace(line).value;
          if ParseInt(quantity).Some? {
            var e := Entry(ParseInt(quantity).value, name);
            assert ParseEntry(line) == Some(e);
            assert ParseAll(s) == Ok(es + [e]);
            AssignAllSnoc([], es, e);
          } else {
            assert ParseEntry(line) == None;
          }
      } else {
        assert Spaced(lines) == Spaced(init) + [] == Spaced(init);
        assert SplitFirstSpace(line).None?;
      }
    }
  }

  /** Once a prefix of a deck file stops the reading, the whole file
      stops on the same line. */
  lemma {:induction false} ReadDeckMalformedPrefix(lines: seq<string>, j: int)
    requires 0 <= j <= |lines| && ReadDeck(lines[..j]).Malformed?
    ensures ReadDeck(lines) == ReadDeck(lines[..j])
    decreases |lines|
  {
    if j < |lines| {
      var init := lines[..|lines| - 1];
      assert init[..j] == lines[..j];
      ReadDeckMalformedPrefix(init, j);
    } else {
      assert lines[..j] == lines;
    }
  }

  /** A deck read without error has one item per card name. */
  lemma ReadDeckUnique(lines: seq<string>)
    requires ReadDeck(lines).Ok?
    ensures UniqueKeys(ReadDeck(lines).value)
  {
    ReadDeckSpaced(lines);
    AssignAllGet([], ParseAll(Spaced(lines)).value, "");
  }

  /** The loop reading one deck file. */
  method ReadDeckFile(lines: seq<string>) returns (r: Result<Dict<int>>)
    ensures r == ReadDeck(lines)
  {
    var deck: Dict<int> := [];
    for i := 0 to |lines|
      invariant ReadDeck(lines[..i]) == Ok(deck)
    {
      var card := lines[i];
      assert lines[..i + 1][..i] == lines[..i];
      var parts := SplitFirstSpace(card);
      if parts.Some? {
        var (quantity, name) := parts.value;
        var qty := ParseInt(quantity);
        if qty.None? {
          ReadDeckMalformedPrefix(lines, i + 1);
          return Malformed(card);
        }
        deck := Put(deck, name, qty.value);
      }
    }
    assert lines[..|lines|] == lines;
    return Ok(deck);
  }

  // ---------------------------------------------------------------------
  // Classifying one card
  // ---------------------------------------------------------------------

  /** Where one card goes: its quantity in common and its excess in each
      deck; None where the card gets no row. */
  datatype Split = Split(common: Option<int>, only1: Option<int>, only2: Option<int>)

  /** The three lists the comparison fills. */
  datatype Side = Common | Only1 | Only2

  function Pick(s: Split, side: Side): Option<int> {
    match side
    case Common => s.common
    case Only1 => s.only1
    case Only2 => s.only2
  }

  function Qty(o: Option<int>): int {
    match o
    case Some(q) => q
    case None => 0
  }

  /** A card held `q1` times by deck 1 and `q2` times by deck 2. */
  function Classify(q1: int, q2: int): Split {
    if q1 > 0 && q2 > 0 then
      var c := Min(q1, q2);
      Split(Some(c), if q1 > c then Some(q1 - c) else None, if q2 > c then Some(q2 - c) else None)
    else if q1 > 0 then Split(None, Some(q1), None)
    else Split(None, None, Some(q2))
  }

  /** The classification of one card. It is common exactly when both decks
      hold it, at the smaller quantity; the excess goes to the deck holding
      more, so at most one deck gets an excess; a card deck 1 holds and
      deck 2 does not is deck 1's in full; every other card is deck 2's at
      deck 2's quantity, even when that is zero or negative; each card gets
      at least one row; and with both quantities non-negative the rows of
      each deck add up to that deck's quantity. */
  lemma ClassifySpec(q1: int, q2: int)
    ensures var s := Classify(q1, q2);
            && (s.common.Some? <==> q1 > 0 && q2 > 0)
            && (s.common.Some? ==> s.common.value == Min(q1, q2) && s.common.value > 0)
            && !(s.only1.Some? && s.only2.Some?)
            && (s.common.Some? && s.only1.Some? ==> q1 > q2 && s.only1.value == q1 - q2)
            && (s.common.Some? && s.only2.Some? ==> q2 > q1 && s.only2.value == q2 - q1)
            && (q1 > 0 && q2 <= 0 ==> s == Split(None, Some(q1), None))
            && (q1 <= 0 ==> s == Split(None, None, Some(q2)))
            && (s.common.Some? || s.only1.Some? || s.only2.Some?)
            && (s.only1.Some? ==> s.only1.value > 0)
            && (q1 >= 0 ==> Qty(s.common) + Qty(s.only1) == q1)
            && (q1 >= 0 && q2 >= 0 ==> Qty(s.common) + Qty(s.only2) == q2)
  {
  }

  // ---------------------------------------------------------------------
  // The categorizing loop
  // ---------------------------------------------------------------------

  /** The three lists the loop fills, in the order it fills them. */
  datatype Buckets = Buckets(common: seq<Entry>, only1: seq<Entry>, only2: seq<Entry>)

  function BucketAt(b: Buckets, side: Side): seq<Entry> {
    match side
    case Common => b.common
    case Only1 => b.only1
    case Only2 => b.only2
  }

  /** The row a card gets in one list, if any. */
  function Row(o: Option<int>, card: string): seq<Entry> {
    match o
    case None => []
    case Some(q) => [Entry(q, card)]
  }

  /** One pass of the loop: the card's rows appended to the lists. */
  function Place(b: Buckets, card: string, s: Split): Buckets {
    Buckets(b.common + Row(s.common, card), b.only1 + Row(s.only1, card), b.only2 + Row(s.only2, card))
  }

  /** The loop over the card names, taken in the order it visits them. */
  function Categorize(d1: Dict<int>, d2: Dict<int>, cards: seq<string>): Buckets {
    if cards == [] then Buckets([], [], [])
    else
      var card := cards[|cards| - 1];
      Place(Categorize(d1, d2, cards[..|cards| - 1]), card, Classify(Get(d1, card, 0), Get(d2, card, 0)))
  }

  /** The names a set yields when iterated: each once. */
  predicate DistinctCards(cards: seq<string>) {
    forall i, j :: 0 <= i < j < |cards| ==> cards[i] != cards[j]
  }

  /** `set(deck1.keys()) | set(deck2.keys())`. */
  function AllCards(d1: Dict<int>, d2: Dict<int>): set<string> {
    (set k | k in Keys(d1)) + (set k | k in Keys(d2))
  }

  /** The last row for a name after one more card's row. */
  lemma LastQtyRow(rows: seq<Entry>, o: Option<int>, card: string, c: string)
    ensures LastQty(rows + Row(o, card), c) == if o.Some? && c == card then o else LastQty(rows, c)
  {
    match o
    case None =>
      assert rows + Row(o, card) == rows;
    case Some(q) =>
      assert (rows + [Entry(q, card)])[..|rows|] == rows;
  }

  /** Whatever order the cards are visited in, a list holds a row for a
      card exactly when its classification gives it one on that side, at
      that quantity, and no row for a card that was not visited. */
  lemma {:induction false} CategorizeLookup(d1: Dict<int>, d2: Dict<int>, cards: seq<string>, side: Side, c: string)
    requires DistinctCards(cards)
    ensures LastQty(BucketAt(Categorize(d1, d2, cards), side), c)
            == if c in cards then Pick(Classify(Get(d1, c, 0), Get(d2, c, 0)), side) else None
  {
    if cards != [] {
      var init := cards[..|cards| - 1];
      var card := cards[|cards| - 1];
      assert cards == init + [card];
      assert card !in init;
      CategorizeLookup(d1, d2, init, side, c);
      var rows := BucketAt(Categorize(d1, d2, init), side);
      var o := Pick(Classify(Get(d1, card, 0), Get(d2, card, 0)), side);
      assert BucketAt(Categorize(d1, d2, cards), side) == rows + Row(o, card);
      LastQtyRow(rows, o, card, c);
    }
  }

  /** Each list names a visited card at most once. */
  lemma {:induction false} CategorizeNames(d1: Dict<int>, d2: Dict<int>, cards: seq<string>, side: Side)
    requires DistinctCards(cards)
    ensures var rows := BucketAt(Categorize(d1, d2, cards), side);
            && DistinctNames(rows)
            && forall i :: 0 <= i < |rows| ==> rows[i].name in cards
  {
    if cards != [] {
      var init := cards[..|cards| - 1];
      var card := cards[|cards| - 1];
      assert cards == init + [card];
      assert card !in init;
      CategorizeNames(d1, d2, init, side);
      var rows := BucketAt(Categorize(d1, d2, init), side);
      var o := Pick(Classify(Get(d1, card, 0), Get(d2, card, 0)), side);
      assert BucketAt(Categorize(d1, d2, cards), side) == rows + Row(o, card);
      NamesRow(rows, o, card, init);
    }
  }

  lemma NamesRow(rows: seq<Entry>, o: Option<int>, card: string, cards: seq<string>)
    requires DistinctNames(rows) && card !in cards
    requires forall i :: 0 <= i < |rows| ==> rows[i].name in cards
    ensures DistinctNames(rows + Row(o, card))
    ensures forall i :: 0 <= i < |rows + Row(o, card)| ==> (rows + Row(o, card))[i].name in cards + [card]
  {
    match o
    case None =>
      assert rows + Row(o, card) == rows;
    case Some(q) =>
  }

  lemma SumQtyRow(rows: seq<Entry>, o: Option<int>, card: string)
    ensures SumQty(rows + Row(o, card)) == SumQty(rows) + Qty(o)
  {
    match o
    case None =>
      assert rows + Row(o, card) == rows;
    case Some(q) =>
      assert (rows + [Entry(q, card)])[..|rows|] == rows;
  }

  /** With no negative quantity among the visited cards, the common rows
      and deck 1's rows add up to deck 1's quantities of those cards, and
      the common rows and deck 2's rows to deck 2's. */
  lemma {:induction false} CategorizeSums(d1: Dict<int>, d2: Dict<int>, cards: seq<string>)
    requires forall c :: c in cards ==> Get(d1, c, 0) >= 0 && Get(d2, c, 0) >= 0
    ensures var b := Categorize(d1, d2, cards);
            && SumQty(b.common) + SumQty(b.only1) == GetSum(d1, cards)
            && SumQty(b.common) + SumQty(b.only2) == GetSum(d2, cards)
  {
    if cards != [] {
      var init := cards[..|cards| - 1];
      var card := cards[|cards| - 1];
      assert card in cards;
      CategorizeSums(d1, d2, init);
      var b := Categorize(d1, d2, init);
      var s := Classify(Get(d1, card, 0), Get(d2, card, 0));
      ClassifySpec(Get(d1, card, 0), Get(d2, card, 0));
      SumQtyRow(b.common, s.common, card);
      SumQtyRow(b.only1, s.only1, card);
      SumQtyRow(b.only2, s.only2, card);
    }
  }

  /** The body of the loop for one card: the comparison of its two
      quantities, appending its rows to the three lists. */
  method PlaceCard(b: Buckets, card: string, qty1: int, qty2: int) returns (b': Buckets)
    ensures b' == Place(b, card, Classify(qty1, qty2))
  {
    var commonCards, uniqueToDeck1, uniqueToDeck2 := b.common, b.only1, b.only2;
    if qty1 > 0 && qty2 > 0 {
      var commonQty := Min(qty1, qty2);
      commonCards := commonCards + [Entry(commonQty, card)];
      if qty1 > commonQty {
        uniqueToDeck1 := uniqueToDeck1 + [Entry(qty1 - commonQty, card)];
      }
      if qty2 > commonQty {
        uniqueToDeck2 := uniqueToDeck2 + [Entry(qty2 - commonQty, card)];
      }
    } else if qty1 > 0 {
      uniqueToDeck1 := uniqueToDeck1 + [Entry(qty1, card)];
    } else {
      uniqueToDeck2 := uniqueToDeck2 + [Entry(qty2, card)];
    }
    b' := Buckets(commonCards, uniqueToDeck1, uniqueToDeck2);
  }

  /** The loop of the command over the union of the two decks' card
      names. Iterating a set visits its elements in an order the language
      leaves open; the ghost `visited` records the order taken. */
  method CategorizeCards(deck1: Dict<int>, deck2: Dict<int>) returns (b: Buckets, ghost visited: seq<string>)
    ensures DistinctCards(visited)
    ensures forall c :: c in visited <==> c in AllCards(deck1, deck2)
    ensures b == Categorize(deck1, deck2, visited)
  {
    var allCards := (set k | k in Keys(deck1)) + (set k | k in Keys(deck2));
    var remaining := allCards;
    b := Buckets([], [], []);
    visited := [];
    while remaining != {}
      invariant remaining <= allCards
      invariant DistinctCards(visited)
      invariant forall c :: c in visited <==> c in allCards && c !in remaining
      invariant b == Categorize(deck1, deck2, visited)
      decreases |remaining|
    {
      var card :| card in remaining;
      var qty1 := Get(deck1, card, 0);
      var qty2 := Get(deck2, card, 0);
      b := PlaceCard(b, card, qty1, qty2);
      assert (visited + [card])[..|visited|] == visited;
      visited := visited + [card];
      remaining := remaining - {card};
    }
  }

  // ---------------------------------------------------------------------
  // The printed comparison
  // ---------------------------------------------------------------------

  /** The order of the printed rows: by card name. */
  predicate NameLe(a: Entry, b: Entry) {
    StrLe(a.name, b.name)
  }

  /** What the command prints: each list's total quantity and its rows
      sorted by name (the count of unique cards is the length of a list). */
  datatype Comparison = Comparison(totalCommon: int, common: seq<Entry>,
                                   totalOnly1: int, only1: seq<Entry>,
                                   totalOnly2: int, only2: seq<Entry>)

  /** A printed list: sorted by name, one row per name, the row for a card
      of either deck being its classification on that side and no row
      for any other name. */
  ghost predicate Listed(d1: Dict<int>, d2: Dict<int>, rows: seq<Entry>, side: Side) {
    && DistinctNames(rows)
    && SortedBy(rows, NameLe)
    && forall c :: LastQty(rows, c)
                   == if c in AllCards(d1, d2) then Pick(Classify(Get(d1, c, 0), Get(d2, c, 0)), side) else None
  }

  /** No quantity in the deck is negative. */
  predicate NonNegative(d: Dict<int>) {
    forall i :: 0 <= i < |d| ==> d[i].val >= 0
  }

  lemma {:induction false} NonNegativeGet(d: Dict<int>, c: string)
    requires NonNegative(d)
    ensures Get(d, c, 0) >= 0
  {
    if d != [] && d[0].key != c {
      assert forall i :: 0 <= i < |d[1..]| ==> d[1..][i] == d[i + 1];
      NonNegativeGet(d[1..], c);
    }
  }

  /** The whole comparison of two decks: the three lists, each total the
      sum of its list, and, when neither deck holds a negative quantity,
      the common cards plus a deck's own cards making up that deck's
      total (so the three totals add up to both decks' totals less the
      common total). */
  ghost predicate Compared(d1: Dict<int>, d2: Dict<int>, r: Comparison) {
    && Listed(d1, d2, r.common, Common)
    && Listed(d1, d2, r.only1, Only1)
    && Listed(d1, d2, r.only2, Only2)
    && r.totalCommon == SumQty(r.common)
    && r.totalOnly1 == SumQty(r.only1)
    && r.totalOnly2 == SumQty(r.only2)
    && (UniqueKeys(d1) && UniqueKeys(d2) && NonNegative(d1) && NonNegative(d2) ==>
          && r.totalCommon + r.totalOnly1 == Total(d1)
          && r.totalCommon + r.totalOnly2 == Total(d2))
  }

  /** Sorting a list the loop filled, over any visiting order of the
      union, gives the printed list. */
  lemma ListedSorted(d1: Dict<int>, d2: Dict<int>, cards: seq<string>, side: Side)
    requires DistinctCards(cards)
    requires forall c :: c in cards <==> c in AllCards(d1, d2)
    ensures Listed(d1, d2, SortBy(BucketAt(Categorize(d1, d2, cards), side), NameLe), side)
  {
    var rows := BucketAt(Categorize(d1, d2, cards), side);
    var sorted := SortBy(rows, NameLe);
    CategorizeNames(d1, d2, cards, side);
    KeyOrder(NameLe, EntryName);
    SortBySorted(rows, NameLe);
    DistinctNamesPermutation(rows, sorted);
    forall c
      ensures LastQty(sorted, c)
              == if c in AllCards(d1, d2) then Pick(Classify(Get(d1, c, 0), Get(d2, c, 0)), side) else None
    {
      LastQtyPermutation(rows, sorted, c);
      CategorizeLookup(d1, d2, cards, side, c);
    }
  }

  /** The totals, over any visiting order of the union. */
  lemma CategorizeTotals(d1: Dict<int>, d2: Dict<int>, cards: seq<string>)
    requires DistinctCards(cards)
    requires forall c :: c in cards <==> c in AllCards(d1, d2)
    requires UniqueKeys(d1) && UniqueKeys(d2) && NonNegative(d1) && NonNegative(d2)
    ensures var b := Categorize(d1, d2, cards);
            && SumQty(b.common) + SumQty(b.only1) == Total(d1)
            && SumQty(b.common) + SumQty(b.only2) == Total(d2)
  {
    forall c | c in cards ensures Get(d1, c, 0) >= 0 && Get(d2, c, 0) >= 0 {
      NonNegativeGet(d1, c);
      NonNegativeGet(d2, c);
    }
    CategorizeSums(d1, d2, cards);
    forall k | HasKey(d1, k) ensures k in cards {
      KeysHasKey(d1, k);
    }
    forall k | HasKey(d2, k) ensures k in cards {
      KeysHasKey(d2, k);
    }
    GetSumTotal(d1, cards);
    GetSumTotal(d2, cards);
  }

  /** The lists the loop filled, over any visiting order of the union,
      totalled and sorted, are the comparison of the two decks. */
  lemma CategorizeCompared(d1: Dict<int>, d2: Dict<int>, cards: seq<string>)
    requires DistinctCards(cards)
    requires forall c :: c in cards <==> c in AllCards(d1, d2)
    ensures var b := Categorize(d1, d2, cards);
            Compared(d1, d2, Comparison(SumQty(b.common), SortBy(b.common, NameLe),
                                        SumQty(b.only1), SortBy(b.only1, NameLe),
                                        SumQty(b.only2), SortBy(b.only2, NameLe)))
  {
    CategorizeListed(d1, d2, cards);
    CategorizeSummed(d1, d2, cards);
  }

  lemma CategorizeListed(d1: Dict<int>, d2: Dict<int>, cards: seq<string>)
    requires DistinctCards(cards)
    requires forall c :: c in cards <==> c in AllCards(d1, d2)
    ensures var b := Categorize(d1, d2, cards);
            && Listed(d1, d2, SortBy(b.common, NameLe), Common)
            && Listed(d1, d2, SortBy(b.only1, NameLe), Only1)
            && Listed(d1, d2, SortBy(b.only2, NameLe), Only2)
  {
    var b := Categorize(d1, d2, cards);
    assert BucketAt(b, Common) == b.common && BucketAt(b, Only1) == b.only1 && BucketAt(b, Only2) == b.only2;
    ListedSorted(d1, d2, cards, Common);
    ListedSorted(d1, d2, cards, Only1);
    ListedSorted(d1, d2, cards, Only2);
  }

  lemma CategorizeSummed(d1: Dict<int>, d2: Dict<int>, cards: seq<string>)
    requires DistinctCards(cards)
    requires forall c :: c in cards <==> c in AllCards(d1, d2)
    ensures var b := Categorize(d1, d2, cards);
            && SumQty(b.common) == SumQty(SortBy(b.common, NameLe))
            && SumQty(b.only1) == SumQty(SortBy(b.only1, NameLe))
            && SumQty(b.only2) == SumQty(SortBy(b.only2, NameLe))
            && (UniqueKeys(d1) && UniqueKeys(d2) && NonNegative(d1) && NonNegative(d2) ==>
                  && SumQty(b.common) + SumQty(b.only1) == Total(d1)
                  && SumQty(b.common) + SumQty(b.only2) == Total(d2))
  {
    var b := Categorize(d1, d2, cards);
    SumQtyPermutation(b.common, SortBy(b.common, NameLe));
    SumQtyPermutation(b.only1, SortBy(b.only1, NameLe));
    SumQtyPermutation(b.only2, SortBy(b.only2, NameLe));
    if UniqueKeys(d1) && UniqueKeys(d2) && NonNegative(d1) && NonNegative(d2) {
      CategorizeTotals(d1, d2, cards);
    }
  }

  /** With distinct names, an entry is in a list exactly when it is the
      last row for its name. */
  lemma LastQtyIn(rows: seq<Entry>, e: Entry)
    requires DistinctNames(rows)
    ensures e in rows <==> LastQty(rows, e.name) == Some(e.qty)
  {
    if e in rows {
      var i :| 0 <= i < |rows| && rows[i] == e;
      var r := LastQty(rows, e.name);
      var k :| 0 <= k < |rows| && rows[k].name == e.name && rows[k].qty == r.value
               && forall j :: k < j < |rows| ==> rows[j].name != e.name;
      assert k == i;
    }
    if LastQty(rows, e.name) == Some(e.qty) {
      var k :| 0 <= k < |rows| && rows[k].name == e.name && rows[k].qty == e.qty
               && forall j :: k < j < |rows| ==> rows[j].name != e.name;
      assert rows[k] == e;
    }
  }

  /** Of two sorted lists holding the same rows, with distinct names, the
      first rows are the same. */
  lemma SortedHeads(a: seq<Entry>, b: seq<Entry>)
    requires a != [] && DistinctNames(b) && SortedBy(a, NameLe) && SortedBy(b, NameLe)
    requires forall e :: e in a <==> e in b
    ensures b != [] && a[0] == b[0]
  {
    assert a[0] in b;
    assert b[0] in a;
    var i :| 0 <= i < |a| && a[i] == b[0];
    var j :| 0 <= j < |b| && b[j] == a[0];
    StrLeTotal(a[0].name, a[0].name);
    assert NameLe(a[0], a[i]);
    assert NameLe(b[0], b[j]);
    StrLeAntisym(a[0].name, b[0].name);
    assert j == 0;
  }

  /** Dropping the same first row from two lists with distinct names that
      hold the same rows leaves lists holding the same rows. */
  lemma SameTails(a: seq<Entry>, b: seq<Entry>)
    requires a != [] && b != [] && a[0] == b[0] && DistinctNames(a) && DistinctNames(b)
    requires forall e :: e in a <==> e in b
    ensures forall e :: e in a[1..] <==> e in b[1..]
  {
    forall e ensures e in a[1..] <==> e in b[1..] {
      if e in a[1..] {
        var k :| 0 <= k < |a| - 1 && a[1..][k] == e;
        assert a[k + 1] == e && e.name != a[0].name;
        assert e in a;
        var m :| 0 <= m < |b| && b[m] == e;
        assert b[1..][m - 1] == e;
      }
      if e in b[1..] {
        var k :| 0 <= k < |b| - 1 && b[1..][k] == e;
        assert b[k + 1] == e && e.name != b[0].name;
        assert e in b;
        var m :| 0 <= m < |a| && a[m] == e;
        assert a[1..][m - 1] == e;
      }
    }
  }

  /** Two lists sorted by name, each naming a card at most once, that hold
      the same rows are the same list. */
  lemma {:induction false} SortedUnique(a: seq<Entry>, b: seq<Entry>)
    requires DistinctNames(a) && SortedBy(a, NameLe)
    requires DistinctNames(b) && SortedBy(b, NameLe)
    requires forall e :: e in a <==> e in b
    ensures a == b
    decreases |a|
  {
    assert b != [] ==> b[0] in a;
    if a != [] {
      SortedHeads(a, b);
      SameTails(a, b);
      assert SortedBy(a[1..], NameLe) && SortedBy(b[1..], NameLe);
      SortedUnique(a[1..], b[1..]);
      assert a == [a[0]] + a[1..] && b == [b[0]] + b[1..];
    }
  }

  /** A printed list is determined by the two decks: whatever order the
      set of card names is iterated in, the command prints the same
      lists. */
  lemma ListedUnique(d1: Dict<int>, d2: Dict<int>, a: seq<Entry>, b: seq<Entry>, side: Side)
    requires Listed(d1, d2, a, side) && Listed(d1, d2, b, side)
    ensures a == b
  {
    forall e ensures e in a <==> e in b {
      LastQtyIn(a, e);
      LastQtyIn(b, e);
    }
    SortedUnique(a, b);
  }

  /** The comparison of two decks is determined by them. */
  lemma ComparedUnique(d1: Dict<int>, d2: Dict<int>, r: Comparison, r': Comparison)
    requires Compared(d1, d2, r) && Compared(d1, d2, r')
    ensures r == r'
  {
    ListedUnique(d1, d2, r.common, r'.common, Common);
    ListedUnique(d1, d2, r.only1, r'.only1, Only1);
    ListedUnique(d1, d2, r.only2, r'.only2, Only2);
  }

  /** The command: both deck files read (deck 1 first, the first bad
      quantity stopping it), every card of either deck classified, the
      three lists totalled and sorted by name. */
  method CompareDeckFiles(deck1Lines: seq<string>, deck2Lines: seq<string>) returns (r: Result<Comparison>)
    ensures match ReadDeck(deck1Lines)
            case Malformed(l) => r == Malformed(l)
            case Ok(d1) =>
              match ReadDeck(deck2Lines)
              case Malformed(l) => r == Malformed(l)
              case Ok(d2) => r.Ok? && Compared(d1, d2, r.value)
  {
    var deck1 := ReadDeckFile(deck1Lines);
    if deck1.Malformed? {
      return Malformed(deck1.line);
    }
    var deck2 := ReadDeckFile(deck2Lines);
    if deck2.Malformed? {
      return Malformed(deck2.line);
    }
    var b, visited := CategorizeCards(deck1.value, deck2.value);
    var totalCommon := SumQty(b.common);
    var totalOnly1 := SumQty(b.only1);
    var totalOnly2 := SumQty(b.only2);
    CategorizeCompared(deck1.value, deck2.value, visited);
    r := Ok(Comparison(totalCommon, SortBy(b.common, NameLe),
                       totalOnly1, SortBy(b.only1, NameLe),
                       totalOnly2, SortBy(b.only2, NameLe)));
  }

  // ---------------------------------------------------------------------
  // Example
  // ---------------------------------------------------------------------

  lemma IslandCards()
    ensures AllCards([Item("Island", 2)], [Item("Island", 5), Item("Plains", 1)]) == {"Island", "Plains"}
    ensures DistinctCards(["Island", "Plains"])
    ensures forall c :: c in ["Island", "Plains"] <==> c in AllCards([Item("Island", 2)], [Item("Island", 5), Item("Plains", 1)])
  {
    assert Keys([Item("Island", 2)]) == ["Island"];
    assert Keys([Item("Island", 5), Item("Plains", 1)]) == ["Island", "Plains"];
  }

  lemma IslandBuckets()
    ensures Categorize([Item("Island", 2)], [Item("Island", 5), Item("Plains", 1)], ["Island", "Plains"])
            == Buckets([Entry(2, "Island")], [], [Entry(3, "Island"), Entry(1, "Plains")])
  {
    var cards := ["Island", "Plains"];
    assert cards[..1] == ["Island"] && ["Island"][..0] == [];
    assert Get([Item("Island", 2)], "Plains", 0) == 0;
  }

  lemma IslandSorted()
    ensures SortBy([Entry(3, "Island"), Entry(1, "Plains")], NameLe) == [Entry(3, "Island"), Entry(1, "Plains")]
  {
    SortBySingle(Entry(1, "Plains"), NameLe);
    assert NameLe(Entry(3, "Island"), Entry(1, "Plains"));
    assert [Entry(3, "Island"), Entry(1, "Plains")][1..] == [Entry(1, "Plains")];
  }

  /** Deck 1 holding two Islands and deck 2 five Islands and a Plains: the
      comparison is exactly two Islands in common, nothing only in deck 1,
      and three Islands and the Plains only in deck 2. */
  lemma IslandExample(d1: Dict<int>, d2: Dict<int>, r: Comparison)
    requires d1 == [Item("Island", 2)] && d2 == [Item("Island", 5), Item("Plains", 1)]
    ensures Compared(d1, d2, r)
            <==> r == Comparison(2, [Entry(2, "Island")], 0, [], 4, [Entry(3, "Island"), Entry(1, "Plains")])
  {
    var cards := ["Island", "Plains"];
    IslandCards();
    IslandBuckets();
    IslandSorted();
    SortBySingle(Entry(2, "Island"), NameLe);
    var none: seq<Entry> := [];
    assert SortBy(none, NameLe) == [];
    var b := Categorize(d1, d2, cards);
    assert SumQty([Entry(3, "Island"), Entry(1, "Plains")]) == 4;
    var expected := Comparison(SumQty(b.common), SortBy(b.common, NameLe),
                               SumQty(b.only1), SortBy(b.only1, NameLe),
                               SumQty(b.only2), SortBy(b.only2, NameLe));
    assert expected == Comparison(2, [Entry(2, "Island")], 0, [], 4, [Entry(3, "Island"), Entry(1, "Plains")]);
    CategorizeCompared(d1, d2, cards);
    if Compared(d1, d2, r) {
      ComparedUnique(d1, d2, r, expected);
    }
  }
}
