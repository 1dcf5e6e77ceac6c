// The library update command once its inputs are in hand: the purchase file
// collapsed into counted lines, and the cards still available once every
// built deck has taken its cards from the owned library plus the purchases.
// The deck and library downloads, the file writes and the printed messages
// are left out; the written lists and the warnings are returned instead.

module UpdateCardLibrary {
  import opened Cards
  import opened PyDict
  import opened Ordering
  import opened MoxfieldApi

  // ---------------------------------------------------------------------
  // Purchases
  // ---------------------------------------------------------------------

  /** One entry of quantity 1 per raw line: what a Counter counts. */
  function Ones(raw: seq<string>): (es: seq<Entry>)
    ensures |es| == |raw|
    ensures forall i :: 0 <= i < |raw| ==> es[i] == Entry(1, raw[i])
  {
    seq(|raw|, i requires 0 <= i < |raw| => Entry(1, raw[i]))
  }

  lemma {:induction false} OnesCount(raw: seq<string>, line: string)
    ensures QtyOf(Ones(raw), line) == multiset(raw)[line]
    ensures SumQty(Ones(raw)) == |raw|
    ensures Mentions(Ones(raw), line) <==> line in raw
  {
    if raw != [] {
      var init := raw[..|raw| - 1];
      var last := raw[|raw| - 1];
      var ones := Ones(raw);
      assert ones[..|raw| - 1] == Ones(init);
      assert ones[|raw| - 1] == Entry(1, last);
      OnesCount(init, line);
      assert raw == init + [last];
      assert multiset(raw)[line] == multiset(init)[line] + if last == line then 1 else 0;
    }
    if line in raw {
      var i :| 0 <= i < |raw| && raw[i] == line;
      assert Ones(raw)[i].name == line;
    }
  }

  /** `Counter(raw_cards)`: each distinct line with how often it occurs, in
      first-seen order. */
  function PurchaseCounts(raw: seq<string>): Dict<int> {
    AddAll([], Ones(raw))
  }

  /** The counted purchases hold every distinct raw line exactly once, with
      the number of times it occurs, and the counts add up to the number of
      raw lines. */
  lemma PurchaseCountsSpec(raw: seq<string>)
    ensures var es := Entries(PurchaseCounts(raw));
            && DistinctNames(es)
            && (forall i :: 0 <= i < |es| ==> es[i].qty == multiset(raw)[es[i].name])
            && (forall line :: Mentions(es, line) <==> line in raw)
            && SumQty(es) == |raw|
  {
    var es := Entries(PurchaseCounts(raw));
    AddAllEntries(Ones(raw));
    forall i | 0 <= i < |es| ensures es[i].qty == multiset(raw)[es[i].name] {
      OnesCount(raw, es[i].name);
    }
    forall line ensures Mentions(es, line) <==> line in raw {
      OnesCount(raw, line);
    }
    OnesCount(raw, "");
  }

  /** `_process_purchased_cards` with the purchase file's lines given, or None
      when the file does not exist: the counted lines `"<count> <line>"`, and
      the text-sorted copy written to the formatted purchase file (None when
      nothing is written). */
  method ProcessPurchasedCards(purchasedFile: Option<seq<string>>)
    returns (purchasedCards: seq<string>, formattedFile: Option<seq<string>>)
    ensures purchasedFile.None? ==> purchasedCards == [] && formattedFile.None?
    ensures purchasedFile.Some? ==>
              && purchasedCards == FormatAll(Entries(PurchaseCounts(purchasedFile.value)))
              && formattedFile == Some(SortBy(purchasedCards, StrLe))
  {
    if purchasedFile.None? {
      return [], None;
    }
    var rawCards := purchasedFile.value;
    var cardCounter: Dict<int> := [];
    for i := 0 to |rawCards|
      invariant cardCounter == AddAll([], Ones(rawCards[..i]))
    {
      assert Ones(rawCards[..i + 1])[..i] == Ones(rawCards[..i]);
      AddPut(cardCounter, Entry(1, rawCards[i]));
      cardCounter := Put(cardCounter, rawCards[i], Get(cardCounter, rawCards[i], 0) + 1);
    }
    assert rawCards[..|rawCards|] == rawCards;
    purchasedCards := FormatAll(Entries(cardCounter));
    formattedFile := Some(SortBy(purchasedCards, StrLe));
  }

  // ---------------------------------------------------------------------
  // Availability
  // ---------------------------------------------------------------------

  /** A deck entry the inventory cannot cover on its own: the printed
      `"<qty> <name> (have <have>)"`. */
  datatype Warning = Warning(qty: int, name: string, have: int)

  /** What the command produces: the warnings per deck name, and the lines
      written to the available-cards file. */
  datatype Availability = Availability(unavailable: Dict<seq<Warning>>, available: seq<string>)

  /** The owned library read with assignment (a repeated name keeps its last
      quantity), then the purchases added on top. */
  function Inventory(libraryEntries: seq<Entry>, purchasedEntries: seq<Entry>): Dict<int> {
    AddAll(AssignAll([], libraryEntries), purchasedEntries)
  }

  /** A card's inventory quantity is the quantity of its last library line
      (0 without one) plus everything purchased of it; the inventory holds
      exactly the cards named in either list. */
  lemma InventoryGet(libraryEntries: seq<Entry>, purchasedEntries: seq<Entry>, name: string)
    ensures Get(Inventory(libraryEntries, purchasedEntries), name, 0)
            == (match LastQty(libraryEntries, name) case Some(q) => q case None => 0) + QtyOf(purchasedEntries, name)
    ensures HasKey(Inventory(libraryEntries, purchasedEntries), name)
            <==> Mentions(libraryEntries, name) || Mentions(purchasedEntries, name)
    ensures UniqueKeys(Inventory(libraryEntries, purchasedEntries))
  {
    AssignAllGet([], libraryEntries, name);
    AddAllGet(AssignAll([], libraryEntries), purchasedEntries, name);
  }

  /** The cards the decks use, summed per name in the order first seen. */
  function Used(decks: seq<Deck<Entry>>): Dict<int> {
    if decks == [] then [] else AddAll(Used(decks[..|decks| - 1]), decks[|decks| - 1].cards)
  }

  /** The summed quantity of a card over every entry of every deck. */
  function Usage(decks: seq<Deck<Entry>>, name: string): int {
    if decks == [] then 0 else Usage(decks[..|decks| - 1], name) + QtyOf(decks[|decks| - 1].cards, name)
  }

  /** A card's used quantity is its summed quantity across all decks, and
      the used cards are exactly those some deck names. */
  lemma {:induction false} UsedGet(decks: seq<Deck<Entry>>, name: string)
    ensures Get(Used(decks), name, 0) == Usage(decks, name)
    ensures HasKey(Used(decks), name) <==> exists k :: 0 <= k < |decks| && Mentions(decks[k].cards, name)
    ensures UniqueKeys(Used(decks))
  {
    if decks != [] {
      var init := decks[..|decks| - 1];
      UsedGet(init, name);
      AddAllGet(Used(init), decks[|decks| - 1].cards, name);
      if exists k :: 0 <= k < |decks| && Mentions(decks[k].cards, name) {
        var k :| 0 <= k < |decks| && Mentions(decks[k].cards, name);
        if k < |decks| - 1 { assert init[k] == decks[k]; }
      }
      if exists k :: 0 <= k < |init| && Mentions(init[k].cards, name) {
        var k :| 0 <= k < |init| && Mentions(init[k].cards, name);
        assert decks[k] == init[k];
      }
    }
  }

  /** The warnings of one deck: `"<qty> <name> (have <have>)"` for each entry
      whose quantity exceeds the inventory quantity of its card. */
  function DeckWarnings(inventory: Dict<int>, es: seq<Entry>): seq<Warning> {
    if es == [] then []
    else
      var e := es[|es| - 1];
      var have := Get(inventory, e.name, 0);
      DeckWarnings(inventory, es[..|es| - 1]) + (if have < e.qty then [Warning(e.qty, e.name, have)] else [])
  }

  lemma DeckWarningsSnoc(inventory: Dict<int>, es: seq<Entry>, e: Entry)
    ensures DeckWarnings(inventory, es + [e])
            == DeckWarnings(inventory, es)
               + if Get(inventory, e.name, 0) < e.qty then [Warning(e.qty, e.name, Get(inventory, e.name, 0))] else []
  {
    assert (es + [e])[..|es|] == es;
  }

  /** A warning is raised for an entry exactly when the whole inventory
      quantity of its card, not what other entries or decks have already
      taken, is below the entry's own quantity; each warning comes from an
      entry of the deck. */
  lemma {:induction false} DeckWarningsSpec(inventory: Dict<int>, es: seq<Entry>)
    ensures forall w :: w in DeckWarnings(inventory, es) ==>
              w.have == Get(inventory, w.name, 0) && w.have < w.qty && Entry(w.qty, w.name) in es
    ensures forall i :: 0 <= i < |es| && Get(inventory, es[i].name, 0) < es[i].qty
              ==> Warning(es[i].qty, es[i].name, Get(inventory, es[i].name, 0)) in DeckWarnings(inventory, es)
    ensures DeckWarnings(inventory, es) == [] <==> forall i :: 0 <= i < |es| ==> Get(inventory, es[i].name, 0) >= es[i].qty
  {
    if es != [] {
      var init := es[..|es| - 1];
      DeckWarningsSpec(inventory, init);
      assert forall i :: 0 <= i < |init| ==> init[i] == es[i];
      assert es == init + [es[|es| - 1]];
    }
  }

  /** `unavailable_cards`: each deck with at least one warning, under its
      name. */
  function Unavailable(inventory: Dict<int>, decks: seq<Deck<Entry>>): Dict<seq<Warning>> {
    if decks == [] then []
    else
      var d := decks[|decks| - 1];
      var u := Unavailable(inventory, decks[..|decks| - 1]);
      var ws := DeckWarnings(inventory, d.cards);
      if ws != [] then Put(u, d.name, ws) else u
  }

  /** A deck name is reported iff some deck of that name has a warning, and a
      reported deck always has at least one. */
  lemma {:induction false} UnavailableSpec(inventory: Dict<int>, decks: seq<Deck<Entry>>, name: string)
    ensures HasKey(Unavailable(inventory, decks), name)
            <==> exists k :: 0 <= k < |decks| && decks[k].name == name && DeckWarnings(inventory, decks[k].cards) != []
    ensures HasKey(Unavailable(inventory, decks), name) ==> Get(Unavailable(inventory, decks), name, []) != []
  {
    if decks != [] {
      var init := decks[..|decks| - 1];
      var d := decks[|decks| - 1];
      var u := Unavailable(inventory, init);
      UnavailableSpec(inventory, init, name);
      var ws := DeckWarnings(inventory, d.cards);
      if ws != [] {
        GetPut(u, d.name, ws, name, []);
      }
      if exists k :: 0 <= k < |decks| && decks[k].name == name && DeckWarnings(inventory, decks[k].cards) != [] {
        var k :| 0 <= k < |decks| && decks[k].name == name && DeckWarnings(inventory, decks[k].cards) != [];
        if k < |decks| - 1 { assert init[k] == decks[k]; }
      }
      if exists k :: 0 <= k < |init| && init[k].name == name && DeckWarnings(inventory, init[k].cards) != [] {
        var k :| 0 <= k < |init| && init[k].name == name && DeckWarnings(inventory, init[k].cards) != [];
        assert decks[k] == init[k];
      }
    }
  }

  /** A reported deck name holds the warnings of the last deck of that name
      that has any: a later deck of the same name without warnings leaves
      the entry as it was. */
  lemma {:induction false} UnavailableGet(inventory: Dict<int>, decks: seq<Deck<Entry>>, name: string)
    ensures HasKey(Unavailable(inventory, decks), name) ==>
              exists k :: 0 <= k < |decks| && decks[k].name == name &&
                          Get(Unavailable(inventory, decks), name, []) == DeckWarnings(inventory, decks[k].cards) &&
                          forall k' :: k < k' < |decks| && decks[k'].name == name ==> DeckWarnings(inventory, decks[k'].cards) == []
  {
    if decks != [] {
      var init := decks[..|decks| - 1];
      var d := decks[|decks| - 1];
      var u := Unavailable(inventory, init);
      var ws := DeckWarnings(inventory, d.cards);
      if ws != [] {
        GetPut(u, d.name, ws, name, []);
      }
      if ws != [] && d.name == name {
        assert decks[|decks| - 1].name == name;
      } else if HasKey(Unavailable(inventory, decks), name) {
        assert Unavailable(inventory, decks) == u || Unavailable(inventory, decks) == Put(u, d.name, ws);
        UnavailableGet(inventory, init, name);
        var k :| 0 <= k < |init| && init[k].name == name &&
                 Get(u, name, []) == DeckWarnings(inventory, init[k].cards) &&
                 forall k' :: k < k' < |init| && init[k'].name == name ==> DeckWarnings(inventory, init[k'].cards) == [];
        assert decks[k] == init[k];
        forall k' | k < k' < |decks| && decks[k'].name == name
          ensures DeckWarnings(inventory, decks[k'].cards) == []
        {
          if k' < |init| { assert decks[k'] == init[k']; }
        }
      }
    }
  }

  /** `available_dict`: inventory minus usage, kept only where positive, in
      inventory order. */
  function Remaining(inventory: Dict<int>, used: Dict<int>): Dict<int> {
    if inventory == [] then []
    else
      var item := inventory[|inventory| - 1];
      var p := Remaining(inventory[..|inventory| - 1], used);
      var available := item.val - Get(used, item.key, 0);
      if available > 0 then Put(p, item.key, available) else p
  }

  /** A card remains iff it is in the inventory and its inventory quantity
      exceeds its usage, and then it remains with the difference: a card no
      deck can spare, or that only the decks name, never remains. */
  lemma {:induction false} RemainingGet(inventory: Dict<int>, used: Dict<int>, name: string)
    requires UniqueKeys(inventory)
    ensures HasKey(Remaining(inventory, used), name)
            <==> HasKey(inventory, name) && Get(inventory, name, 0) - Get(used, name, 0) > 0
    ensures HasKey(Remaining(inventory, used), name)
            ==> Get(Remaining(inventory, used), name, 0) == Get(inventory, name, 0) - Get(used, name, 0)
    ensures UniqueKeys(Remaining(inventory, used))
  {
    if inventory != [] {
      var p := inventory[..|inventory| - 1];
      var item := inventory[|inventory| - 1];
      UniqueKeysLast(inventory);
      RemainingGet(p, used, name);
      RemainingGet(p, used, item.key);
      GetPut(p, item.key, item.val, name, 0);
      var r := Remaining(p, used);
      var available := item.val - Get(used, item.key, 0);
      if available > 0 {
        GetPut(r, item.key, available, name, 0);
        PutUnique(r, item.key, available);
      }
    }
  }

  /** The whole computation on the command's inputs: the first line that
      fails to parse (library lines, then purchased lines, then deck lines),
      or the warnings and the sorted available lines. */
  function AvailableCards(library: seq<string>, decks: seq<Deck<string>>, purchasedCards: seq<string>): Result<Availability> {
    match ParseAll(library)
    case Malformed(l) => Malformed(l)
    case Ok(libraryEntries) =>
      match ParseAll(purchasedCards)
      case Malformed(l) => Malformed(l)
      case Ok(purchasedEntries) =>
        match ParseDecks(decks)
        case Malformed(l) => Malformed(l)
        case Ok(ds) =>
          var inventory := Inventory(libraryEntries, purchasedEntries);
          Ok(Availability(Unavailable(inventory, ds),
                          SortBy(FormatAll(Entries(Remaining(inventory, Used(ds)))), LineLe)))
  }

  /** A card left over for the available list: in the inventory, with its
      inventory quantity minus its usage, which is positive. */
  predicate Remains(inventory: Dict<int>, used: Dict<int>, e: Entry) {
    HasKey(inventory, e.name) && e.qty == Get(inventory, e.name, 0) - Get(used, e.name, 0) && e.qty > 0
  }

  /** The remaining cards as entries, in inventory order: one per card, each
      one left over, and every card with a positive difference among them. */
  lemma RemainingEntries(inventory: Dict<int>, used: Dict<int>)
    requires UniqueKeys(inventory)
    ensures var es := Entries(Remaining(inventory, used));
            && DistinctNames(es)
            && (forall i :: 0 <= i < |es| ==> Remains(inventory, used, es[i]))
            && (forall name :: HasKey(inventory, name) && Get(inventory, name, 0) - Get(used, name, 0) > 0
                  ==> exists i :: 0 <= i < |es| && es[i].name == name)
  {
    var rem := Remaining(inventory, used);
    var es := Entries(rem);
    RemainingGet(inventory, used, "");
    UniqueKeysDistinct(rem);
    forall i | 0 <= i < |es| ensures Remains(inventory, used, es[i]) {
      GetAt(rem, i, 0);
      HasKeyIndex(rem, es[i].name);
      RemainingGet(inventory, used, es[i].name);
    }
    forall name | HasKey(inventory, name) && Get(inventory, name, 0) - Get(used, name, 0) > 0
      ensures exists i :: 0 <= i < |es| && es[i].name == name
    {
      RemainingGet(inventory, used, name);
      HasKeyIndex(rem, name);
    }
  }

  /** The available lines: the remaining cards in library order (see
      `SortLibrary`), one line per card, each one left over, and every card
      with a positive difference among them. */
  lemma AvailableList(inventory: Dict<int>, used: Dict<int>)
    requires UniqueKeys(inventory)
    ensures var es := SortLibrary(Entries(Remaining(inventory, used)));
            && SortBy(FormatAll(Entries(Remaining(inventory, used))), LineLe) == FormatAll(es)
            && DistinctNames(es)
            && (forall i :: 0 <= i < |es| ==> Remains(inventory, used, es[i]))
            && (forall name :: HasKey(inventory, name) && Get(inventory, name, 0) - Get(used, name, 0) > 0
                  ==> exists i :: 0 <= i < |es| && es[i].name == name)
  {
    var unsorted := Entries(Remaining(inventory, used));
    var es := SortLibrary(unsorted);
    SortFormatted(unsorted);
    RemainingEntries(inventory, used);
    DistinctNamesPermutation(unsorted, es);
    forall i | 0 <= i < |es| ensures Remains(inventory, used, es[i]) {
      assert es[i] in multiset(unsorted);
    }
    forall name | HasKey(inventory, name) && Get(inventory, name, 0) - Get(used, name, 0) > 0
      ensures exists i :: 0 <= i < |es| && es[i].name == name
    {
      var m :| 0 <= m < |unsorted| && unsorted[m].name == name;
      assert unsorted[m] in multiset(es);
    }
  }

  /** The first part of `_calculate_available_cards`: the library lines
      assigned into the inventory, then the purchased lines added. */
  method BuildInventory(library: seq<string>, purchasedCards: seq<string>) returns (r: Result<Dict<int>>)
    ensures r == (match ParseAll(library)
                  case Malformed(l) => Malformed(l)
                  case Ok(libraryEntries) =>
                    (match ParseAll(purchasedCards)
                     case Malformed(l) => Malformed(l)
                     case Ok(purchasedEntries) => Ok(Inventory(libraryEntries, purchasedEntries))))
  {
    var libraryDict: Dict<int> := [];
    ghost var libraryEntries: seq<Entry> := [];
    for i := 0 to |library|
      invariant ParseAll(library[..i]) == Ok(libraryEntries)
      invariant libraryDict == AssignAll([], libraryEntries)
    {
      ParseAllSnoc(library, i);
      var parsed := ParseEntry(library[i]);
      if parsed.None? {
        ParseAllMalformedPrefix(library, i + 1);
        return Malformed(library[i]);
      }
      var e := parsed.value;
      AssignAllSnoc([], libraryEntries, e);
      libraryDict := Put(libraryDict, e.name, e.qty);
      libraryEntries := libraryEntries + [e];
    }
    assert library[..|library|] == library;
    ghost var purchasedEntries: seq<Entry> := [];
    ghost var start := libraryDict;
    for i := 0 to |purchasedCards|
      invariant ParseAll(purchasedCards[..i]) == Ok(purchasedEntries)
      invariant libraryDict == AddAll(start, purchasedEntries)
    {
      ParseAllSnoc(purchasedCards, i);
      var parsed := ParseEntry(purchasedCards[i]);
      if parsed.None? {
        ParseAllMalformedPrefix(purchasedCards, i + 1);
        return Malformed(purchasedCards[i]);
      }
      var e := parsed.value;
      AddAllSnoc(start, purchasedEntries, e);
      libraryDict := AddQuantity(libraryDict, e);
      purchasedEntries := purchasedEntries + [e];
    }
    assert purchasedCards[..|purchasedCards|] == purchasedCards;
    return Ok(libraryDict);
  }

  /** What the deck loop carries along: the usage so far and the warnings
      (of one deck, or per deck name). */
  datatype Tally<W> = Tally(used: Dict<int>, warnings: W)

  /** The inner deck loop of `_calculate_available_cards`, for one deck:
      each entry's quantity added to the usage so far, and a warning for
      each entry the inventory cannot cover. */
  method TallyDeck(inventory: Dict<int>, cards: seq<string>, usedBefore: Dict<int>)
    returns (r: Result<Tally<seq<Warning>>>)
    ensures ParseAll(cards).Malformed? ==> r == Malformed(ParseAll(cards).line)
    ensures ParseAll(cards).Ok? ==>
              var es := ParseAll(cards).value;
              r == Ok(Tally(AddAll(usedBefore, es), DeckWarnings(inventory, es)))
  {
    var usedCards := usedBefore;
    var deckUnavailable: seq<Warning> := [];
    ghost var es: seq<Entry> := [];
    for j := 0 to |cards|
      invariant ParseAll(cards[..j]) == Ok(es)
      invariant usedCards == AddAll(usedBefore, es)
      invariant deckUnavailable == DeckWarnings(inventory, es)
    {
      ParseAllSnoc(cards, j);
      var parsed := ParseEntry(cards[j]);
      if parsed.None? {
        ParseAllMalformedPrefix(cards, j + 1);
        return Malformed(cards[j]);
      }
      var e := parsed.value;
      AddAllSnoc(usedBefore, es, e);
      usedCards := AddQuantity(usedCards, e);
      var availableQuantity := Get(inventory, e.name, 0);
      if availableQuantity < e.qty {
        deckUnavailable := deckUnavailable + [Warning(e.qty, e.name, availableQuantity)];
      }
      DeckWarningsSnoc(inventory, es, e);
      es := es + [e];
    }
    assert cards[..|cards|] == cards;
    return Ok(Tally(usedCards, deckUnavailable));
  }

  /** The deck loop of `_calculate_available_cards`: usage summed over every
      deck entry, and each deck's warnings recorded under its name. */
  method TallyDecks(inventory: Dict<int>, decks: seq<Deck<string>>)
    returns (r: Result<Tally<Dict<seq<Warning>>>>)
    ensures ParseDecks(decks).Malformed? ==> r == Malformed(ParseDecks(decks).line)
    ensures ParseDecks(decks).Ok? ==>
              var ds := ParseDecks(decks).value;
              r == Ok(Tally(Used(ds), Unavailable(inventory, ds)))
  {
    var usedCards: Dict<int> := [];
    var unavailableCards: Dict<seq<Warning>> := [];
    ghost var ds: seq<Deck<Entry>> := [];
    for k := 0 to |decks|
      invariant ParseDecks(decks[..k]) == Ok(ds)
      invariant usedCards == Used(ds)
      invariant unavailableCards == Unavailable(inventory, ds)
    {
      assert decks[..k + 1][..k] == decks[..k];
      var deck := decks[k];
      var tally := TallyDeck(inventory, deck.cards, usedCards);
      if tally.Malformed? {
        ParseDecksMalformedPrefix(decks, k + 1);
        return Malformed(tally.line);
      }
      var deckUnavailable: seq<Warning>;
      usedCards, deckUnavailable := tally.value.used, tally.value.warnings;
      if deckUnavailable != [] {
        unavailableCards := Put(unavailableCards, deck.name, deckUnavailable);
      }
      ghost var prevDecks := ds;
      ds := prevDecks + [Deck(deck.name, ParseAll(deck.cards).value)];
      assert ds[..|ds| - 1] == prevDecks;
    }
    assert decks[..|decks|] == decks;
    return Ok(Tally(usedCards, unavailableCards));
  }

  /** The last part of `_calculate_available_cards`: what each inventory card
      has left once the decks' usage is taken out, where that is positive. */
  method RemainingCards(inventory: Dict<int>, used: Dict<int>) returns (availableDict: Dict<int>)
    ensures availableDict == Remaining(inventory, used)
  {
    availableDict := [];
    for i := 0 to |inventory|
      invariant availableDict == Remaining(inventory[..i], used)
    {
      assert inventory[..i + 1][..i] == inventory[..i];
      var item := inventory[i];
      var available := item.val - Get(used, item.key, 0);
      if available > 0 {
        availableDict := Put(availableDict, item.key, available);
      }
    }
    assert inventory[..|inventory|] == inventory;
  }

  /** `_calculate_available_cards`. */
  method CalculateAvailableCards(library: seq<string>, decks: seq<Deck<string>>, purchasedCards: seq<string>)
    returns (r: Result<Availability>)
    ensures r == AvailableCards(library, decks, purchasedCards)
  {
    var inventory := BuildInventory(library, purchasedCards);
    if inventory.Malformed? {
      return Malformed(inventory.line);
    }
    var tally := TallyDecks(inventory.value, decks);
    if tally.Malformed? {
      return Malformed(tally.line);
    }
    var usedCards, unavailableCards := tally.value.used, tally.value.warnings;
    var availableDict := RemainingCards(inventory.value, usedCards);
    var availableCards := FormatAll(Entries(availableDict));
    availableCards := SortBy(availableCards, LineLe);
    return Ok(Availability(unavailableCards, availableCards));
  }

  lemma SolRingParsed()
    ensures ParseAll(["1 Sol Ring"]) == Ok([Entry(1, "Sol Ring")])
    ensures ParseDecks([Deck("Deck", ["1 Sol Ring"])]) == Ok([Deck("Deck", [Entry(1, "Sol Ring")])])
  {
    assert IntToDecimal(1) == "1";
    assert FormatEntry(Entry(1, "Sol Ring")) == "1 Sol Ring";
    ParseSingle(Entry(1, "Sol Ring"), "1 Sol Ring");
    var decks := [Deck("Deck", ["1 Sol Ring"])];
    assert decks[..0] == [];
    var none: seq<Deck<Entry>> := [];
    assert none + [Deck("Deck", [Entry(1, "Sol Ring")])] == [Deck("Deck", [Entry(1, "Sol Ring")])];
  }

  lemma SolRingUsage()
    ensures Inventory([Entry(1, "Sol Ring")], []) == [Item("Sol Ring", 1)]
    ensures Used([Deck("Deck", [Entry(1, "Sol Ring")])]) == [Item("Sol Ring", 1)]
  {
    var libraryEntries := [Entry(1, "Sol Ring")];
    var ds := [Deck("Deck", libraryEntries)];
    assert ds[..0] == [];
    assert libraryEntries[..0] == [];
  }

  lemma SolRingLeftovers()
    ensures Unavailable([Item("Sol Ring", 1)], [Deck("Deck", [Entry(1, "Sol Ring")])]) == []
    ensures Remaining([Item("Sol Ring", 1)], [Item("Sol Ring", 1)]) == []
  {
    var libraryEntries := [Entry(1, "Sol Ring")];
    var ds := [Deck("Deck", libraryEntries)];
    var inventory := [Item("Sol Ring", 1)];
    assert DeckWarnings(inventory, libraryEntries) == [] by {
      assert libraryEntries[..0] == [];
    }
    assert ds[..0] == [];
    assert inventory[..0] == [];
  }

  /** One Sol Ring owned and one needed by a deck leaves nothing available
      and raises no warning. */
  lemma SolRingExample(library: seq<string>, decks: seq<Deck<string>>, purchasedCards: seq<string>)
    requires library == ["1 Sol Ring"] && decks == [Deck("Deck", ["1 Sol Ring"])] && purchasedCards == []
    ensures AvailableCards(library, decks, purchasedCards) == Ok(Availability([], []))
  {
    SolRingParsed();
    SolRingUsage();
    SolRingLeftovers();
    var none: seq<Entry> := [];
    assert ParseAll(purchasedCards) == Ok(none);
    assert Entries([]) == none && FormatAll(none) == [];
    assert SortBy([], LineLe) == [];
  }
}
