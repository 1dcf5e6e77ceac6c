// The missing-card check: every line of a target deck is compared with the
// pool of available cards. What the pool covers is reported as available;
// the rest is looked up in the decks of the configuration. The report has
// four parts: the cards still missing, the cards other decks could lend (with
// a breakdown per deck), the same loans grouped by deck, and the totals. The
// file reads, the deck download and the printing are left out: the lines
// arrive as parameters and the report is returned as a record.

module CheckMissingCards {
  import opened Lists
  import opened Cards
  import opened PyDict
  import opened Ordering

  // ---------------------------------------------------------------------
  // Where the configured decks hold each card
  // ---------------------------------------------------------------------

  /** One configured deck holding a card: `(deck_name, quantity)`. */
  datatype Holding = Holding(deck: string, qty: int)

  function HoldingQty(h: Holding): int { h.qty }

  /** The index after one deck's lines: each line's card gets the pair
      (deck name, quantity) appended to its list. */
  function Record(index: Dict<seq<Holding>>, deckName: string, es: seq<Entry>): Dict<seq<Holding>> {
    if es == [] then index
    else
      var e := es[|es| - 1];
      Append(Record(index, deckName, es[..|es| - 1]), e.name, Holding(deckName, e.qty))
  }

  /** `cards_in_decks`: every configured deck, in configuration order. */
  function IndexDecks(ds: seq<Deck<Entry>>): Dict<seq<Holding>> {
    if ds == [] then []
    else
      var d := ds[|ds| - 1];
      Record(IndexDecks(ds[..|ds| - 1]), d.name, d.cards)
  }

  lemma IndexDecksSnoc(ds: seq<Deck<Entry>>, d: Deck<Entry>)
    ensures IndexDecks(ds + [d]) == Record(IndexDecks(ds), d.name, d.cards)
  {
    assert (ds + [d])[..|ds|] == ds;
  }

  /** The holdings of `card` in one deck, one per line naming it, in line
      order. */
  function HoldingsIn(deckName: string, es: seq<Entry>, card: string): seq<Holding> {
    if es == [] then []
    else
      var e := es[|es| - 1];
      HoldingsIn(deckName, es[..|es| - 1], card) + if e.name == card then [Holding(deckName, e.qty)] else []
  }

  /** The holdings of `card` across the decks, deck after deck. */
  function Holdings(ds: seq<Deck<Entry>>, card: string): seq<Holding> {
    if ds == [] then []
    else
      var d := ds[|ds| - 1];
      Holdings(ds[..|ds| - 1], card) + HoldingsIn(d.name, d.cards, card)
  }

  lemma {:induction false} RecordGet(index: Dict<seq<Holding>>, deckName: string, es: seq<Entry>, card: string)
    ensures Get(Record(index, deckName, es), card, []) == Get(index, card, []) + HoldingsIn(deckName, es, card)
    ensures UniqueKeys(index) ==> UniqueKeys(Record(index, deckName, es))
  {
    if es != [] {
      var e := es[|es| - 1];
      var prev := Record(index, deckName, es[..|es| - 1]);
      RecordGet(index, deckName, es[..|es| - 1], card);
      GetPut(prev, e.name, Get(prev, e.name, []) + [Holding(deckName, e.qty)], card, []);
      if UniqueKeys(index) {
        PutUnique(prev, e.name, Get(prev, e.name, []) + [Holding(deckName, e.qty)]);
      }
    } else {
      assert Get(index, card, []) + [] == Get(index, card, []);
    }
  }

  /** The index lists, for every card, the pair of each configured deck line
      naming it, in configuration order and then line order; the target deck
      is not set apart. */
  lemma {:induction false} IndexDecksGet(ds: seq<Deck<Entry>>, card: string)
    ensures Get(IndexDecks(ds), card, []) == Holdings(ds, card)
    ensures UniqueKeys(IndexDecks(ds))
  {
    if ds != [] {
      var d := ds[|ds| - 1];
      IndexDecksGet(ds[..|ds| - 1], card);
      RecordGet(IndexDecks(ds[..|ds| - 1]), d.name, d.cards, card);
    }
  }

  lemma {:induction false} HoldingsInMember(deckName: string, es: seq<Entry>, card: string, h: Holding)
    ensures h in HoldingsIn(deckName, es, card) <==>
            h.deck == deckName && exists j :: 0 <= j < |es| && es[j] == Entry(h.qty, card)
  {
    if es != [] {
      var init := es[..|es| - 1];
      HoldingsInMember(deckName, init, card, h);
      if h.deck == deckName && exists j :: 0 <= j < |es| && es[j] == Entry(h.qty, card) {
        var j :| 0 <= j < |es| && es[j] == Entry(h.qty, card);
        if j < |init| { assert init[j] == es[j]; }
      }
      if exists j :: 0 <= j < |init| && init[j] == Entry(h.qty, card) {
        var j :| 0 <= j < |init| && init[j] == Entry(h.qty, card);
        assert es[j] == init[j];
      }
    }
  }

  /** Deck `d` is the holding's deck and has a line with the holding's
      quantity of `card`. */
  predicate HoldsLine(d: Deck<Entry>, card: string, h: Holding) {
    d.name == h.deck && exists j :: 0 <= j < |d.cards| && d.cards[j] == Entry(h.qty, card)
  }

  /** A card's holdings are exactly the (deck, quantity) pairs of the
      configured lines naming it. */
  lemma {:induction false} HoldingsMember(ds: seq<Deck<Entry>>, card: string, h: Holding)
    ensures h in Holdings(ds, card) <==> exists k :: 0 <= k < |ds| && HoldsLine(ds[k], card, h)
  {
    if ds != [] {
      var init := ds[..|ds| - 1];
      var d := ds[|ds| - 1];
      HoldingsMember(init, card, h);
      HoldingsInMember(d.name, d.cards, card, h);
      assert h in HoldingsIn(d.name, d.cards, card) <==> HoldsLine(d, card, h);
      if exists k :: 0 <= k < |ds| && HoldsLine(ds[k], card, h) {
        var k :| 0 <= k < |ds| && HoldsLine(ds[k], card, h);
        if k < |init| { assert init[k] == ds[k]; }
      }
      if exists k :: 0 <= k < |init| && HoldsLine(init[k], card, h) {
        var k :| 0 <= k < |init| && HoldsLine(init[k], card, h);
        assert ds[k] == init[k];
      }
    }
  }

  // ---------------------------------------------------------------------
  // Resolving the target deck line by line
  // ---------------------------------------------------------------------

  /** A card still missing after the pool and the other decks:
      `(card_name, still_missing)`. */
  datatype Shortfall = Shortfall(card: string, qty: int)

  /** A card other decks could lend: the summed amount and, per holding
      deck, the amount it could give (`deck_info`). */
  datatype Borrow = Borrow(card: string, total: int, sources: seq<Holding>)

  /** One short card as recorded under a holding deck:
      `(card_name, qty, missing_quantity)`. */
  datatype Need = Need(card: string, qtyInDeck: int, missing: int)

  /** The four lists the loop over the target deck fills. */
  datatype Tallies = Tallies(missing: seq<Shortfall>, borrowable: seq<Borrow>,
                             inDeck: seq<Entry>, byDeck: Dict<seq<Need>>)

  function ShortfallQty(s: Shortfall): int { s.qty }
  function BorrowTotal(b: Borrow): int { b.total }

  /** What a holding deck can give towards `missing` copies. */
  function Shown(n: Need): int { Min(n.qtyInDeck, n.missing) }

  /** `sum(min(deck_qty, missing_quantity) for ...)`. */
  function Borrowable(hs: seq<Holding>, missing: int): int {
    if hs == [] then 0 else Borrowable(hs[..|hs| - 1], missing) + Min(hs[|hs| - 1].qty, missing)
  }

  /** The per-deck breakdown of a loan, in holding order. */
  function Sources(hs: seq<Holding>, missing: int): seq<Holding> {
    seq(|hs|, i requires 0 <= i < |hs| => Holding(hs[i].deck, Min(hs[i].qty, missing)))
  }

  /** `cards_by_deck[other_deck].append((card_name, qty, missing))` for
      every holding, in holding order. */
  function RecordNeeds(byDeck: Dict<seq<Need>>, hs: seq<Holding>, card: string, missing: int): Dict<seq<Need>> {
    if hs == [] then byDeck
    else
      var h := hs[|hs| - 1];
      Append(RecordNeeds(byDeck, hs[..|hs| - 1], card, missing), h.deck, Need(card, h.qty, missing))
  }

  /** One target line against the pool (`available_dict`) and the index
      (`cards_in_decks`). */
  function Resolve(t: Tallies, pool: Dict<int>, index: Dict<seq<Holding>>, e: Entry): Tallies {
    var have := Get(pool, e.name, 0);
    if have < e.qty then
      var missing := e.qty - have;
      var hs := Get(index, e.name, []);
      var borrowable := Borrowable(hs, missing);
      var still := missing - borrowable;
      Tallies(
        if still > 0 then t.missing + [Shortfall(e.name, still)] else t.missing,
        if borrowable > 0 then t.borrowable + [Borrow(e.name, borrowable, Sources(hs, missing))] else t.borrowable,
        if have > 0 then t.inDeck + [Entry(have, e.name)] else t.inDeck,
        RecordNeeds(t.byDeck, hs, e.name, missing))
    else
      t.(inDeck := t.inDeck + [e])
  }

  /** The loop over the target deck's lines. */
  function ResolveAll(pool: Dict<int>, index: Dict<seq<Holding>>, es: seq<Entry>): Tallies {
    if es == [] then Tallies([], [], [], [])
    else Resolve(ResolveAll(pool, index, es[..|es| - 1]), pool, index, es[|es| - 1])
  }

  /** The amount of a loan is the sum of its per-deck breakdown. */
  lemma {:induction false} BorrowableSources(hs: seq<Holding>, missing: int)
    ensures |Sources(hs, missing)| == |hs|
    ensures forall i :: 0 <= i < |hs| ==> Sources(hs, missing)[i].deck == hs[i].deck
    ensures Borrowable(hs, missing) == SumOf(Sources(hs, missing), HoldingQty)
  {
    if hs != [] {
      var init := hs[..|hs| - 1];
      BorrowableSources(init, missing);
      assert Sources(hs, missing)[..|hs| - 1] == Sources(init, missing);
    }
  }

  /** With non-negative deck quantities a loan is never negative, and with
      positive ones there is a loan exactly when some deck holds the card. */
  lemma {:induction false} BorrowableSign(hs: seq<Holding>, missing: int)
    requires missing > 0
    ensures (forall i :: 0 <= i < |hs| ==> hs[i].qty >= 0) ==> Borrowable(hs, missing) >= 0
    ensures (forall i :: 0 <= i < |hs| ==> hs[i].qty > 0) ==> (Borrowable(hs, missing) > 0 <==> hs != [])
  {
    if hs != [] {
      BorrowableSign(hs[..|hs| - 1], missing);
    }
  }

  /** Recording the needs of a short card adds its loan to the per-deck
      totals, and keeps the deck names distinct. */
  lemma {:induction false} RecordNeedsTotal(byDeck: Dict<seq<Need>>, hs: seq<Holding>, card: string, missing: int)
    ensures TotalOf(RecordNeeds(byDeck, hs, card, missing), Shown) == TotalOf(byDeck, Shown) + Borrowable(hs, missing)
    ensures UniqueKeys(byDeck) ==> UniqueKeys(RecordNeeds(byDeck, hs, card, missing))
  {
    if hs != [] {
      var h := hs[|hs| - 1];
      var prev := RecordNeeds(byDeck, hs[..|hs| - 1], card, missing);
      RecordNeedsTotal(byDeck, hs[..|hs| - 1], card, missing);
      TotalOfAppend(prev, h.deck, Need(card, h.qty, missing), Shown);
      if UniqueKeys(byDeck) {
        PutUnique(prev, h.deck, Get(prev, h.deck, []) + [Need(card, h.qty, missing)]);
      }
    }
  }

  /** The copies a tally accounts for: available, still missing and
      borrowable. */
  function Counted(t: Tallies): int {
    SumQty(t.inDeck) + SumOf(t.missing, ShortfallQty) + SumOf(t.borrowable, BorrowTotal)
  }

  /** A line whose copies the three reports split exactly: the pool covers
      it, or the pool holds a non-negative amount and the other decks can
      lend no more than the rest. */
  predicate SplitsExactly(pool: Dict<int>, index: Dict<seq<Holding>>, e: Entry) {
    var have := Get(pool, e.name, 0);
    have >= e.qty || (have >= 0 && 0 <= Borrowable(Get(index, e.name, []), e.qty - have) <= e.qty - have)
  }

  /** How one line lands in the reports. A line the pool covers is reported
      available in full and never missing or borrowed; a short line whose
      card no configured deck holds is missing in full (less what the pool
      has); each list grows by at most one row, about that card. */
  lemma ResolveEntry(t: Tallies, pool: Dict<int>, index: Dict<seq<Holding>>, e: Entry)
    ensures var t' := Resolve(t, pool, index, e);
            && |t.missing| <= |t'.missing| <= |t.missing| + 1 && t'.missing[..|t.missing|] == t.missing
            && |t.borrowable| <= |t'.borrowable| <= |t.borrowable| + 1 && t'.borrowable[..|t.borrowable|] == t.borrowable
            && |t.inDeck| <= |t'.inDeck| <= |t.inDeck| + 1 && t'.inDeck[..|t.inDeck|] == t.inDeck
            && (forall i :: |t.missing| <= i < |t'.missing| ==> t'.missing[i].card == e.name && t'.missing[i].qty > 0)
            && (forall i :: |t.borrowable| <= i < |t'.borrowable| ==> t'.borrowable[i].card == e.name && t'.borrowable[i].total > 0)
            && (forall i :: |t.inDeck| <= i < |t'.inDeck| ==> t'.inDeck[i].name == e.name)
  {
  }

  /** A covered line goes to the available list only. */
  lemma ResolveCovered(t: Tallies, pool: Dict<int>, index: Dict<seq<Holding>>, e: Entry)
    requires Get(pool, e.name, 0) >= e.qty
    ensures var t' := Resolve(t, pool, index, e);
            t'.missing == t.missing && t'.borrowable == t.borrowable && t'.byDeck == t.byDeck
            && t'.inDeck == t.inDeck + [e]
  {
  }

  /** A short line no configured deck holds is missing by exactly what the
      pool lacks, and nothing is borrowed for it. */
  lemma ResolveUnheld(t: Tallies, pool: Dict<int>, index: Dict<seq<Holding>>, e: Entry)
    requires Get(pool, e.name, 0) < e.qty && Get(index, e.name, []) == []
    ensures var t' := Resolve(t, pool, index, e);
            t'.missing == t.missing + [Shortfall(e.name, e.qty - Get(pool, e.name, 0))]
            && t'.borrowable == t.borrowable && t'.byDeck == t.byDeck
  {
  }

  /** With non-negative deck quantities, what is still missing never exceeds
      what the pool lacks. */
  lemma ResolveStillMissingBound(t: Tallies, pool: Dict<int>, index: Dict<seq<Holding>>, e: Entry)
    requires forall i :: 0 <= i < |Get(index, e.name, [])| ==> Get(index, e.name, [])[i].qty >= 0
    ensures var t' := Resolve(t, pool, index, e);
            forall i :: |t.missing| <= i < |t'.missing| ==> t'.missing[i].qty <= e.qty - Get(pool, e.name, 0)
  {
    var have := Get(pool, e.name, 0);
    if have < e.qty {
      BorrowableSign(Get(index, e.name, []), e.qty - have);
    }
  }

  /** What one line adds to the copies the reports account for: its whole
      quantity when the pool covers it; otherwise the positive parts of the
      pool's amount, of what is still missing and of the loan. */
  lemma ResolveCounted(t: Tallies, pool: Dict<int>, index: Dict<seq<Holding>>, e: Entry)
    ensures var have := Get(pool, e.name, 0);
            var borrowable := Borrowable(Get(index, e.name, []), e.qty - have);
            var still := e.qty - have - borrowable;
            Counted(Resolve(t, pool, index, e)) == Counted(t) +
              if have >= e.qty then e.qty
              else (if have > 0 then have else 0) + (if still > 0 then still else 0)
                   + (if borrowable > 0 then borrowable else 0)
  {
    var have := Get(pool, e.name, 0);
    if have < e.qty {
      var missing := e.qty - have;
      var hs := Get(index, e.name, []);
      var borrowable := Borrowable(hs, missing);
      var still := missing - borrowable;
      var t' := Resolve(t, pool, index, e);
      assert SumOf(t'.missing, ShortfallQty) == SumOf(t.missing, ShortfallQty) + (if still > 0 then still else 0) by {
        if still > 0 {
          SumOfSnoc(t.missing, Shortfall(e.name, still), ShortfallQty);
        }
      }
      assert SumOf(t'.borrowable, BorrowTotal) == SumOf(t.borrowable, BorrowTotal) + (if borrowable > 0 then borrowable else 0) by {
        if borrowable > 0 {
          SumOfSnoc(t.borrowable, Borrow(e.name, borrowable, Sources(hs, missing)), BorrowTotal);
        }
      }
      assert SumQty(t'.inDeck) == SumQty(t.inDeck) + (if have > 0 then have else 0) by {
        if have > 0 {
          SumQtyAppend(t.inDeck, [Entry(have, e.name)]);
        }
      }
    } else {
      SumQtyAppend(t.inDeck, [e]);
    }
  }

  /** A line whose copies split exactly adds its quantity to the copies the
      reports account for. */
  lemma ResolveAccounts(t: Tallies, pool: Dict<int>, index: Dict<seq<Holding>>, e: Entry)
    requires SplitsExactly(pool, index, e)
    ensures Counted(Resolve(t, pool, index, e)) == Counted(t) + e.qty
  {
    ResolveCounted(t, pool, index, e);
    var have := Get(pool, e.name, 0);
    if have < e.qty {
      var borrowable := Borrowable(Get(index, e.name, []), e.qty - have);
      assert have >= 0 && 0 <= borrowable <= e.qty - have;
    }
  }

  /** When every line splits exactly, the available, still-missing and
      borrowable amounts add up to the deck's number of cards. */
  lemma {:induction false} ResolveAllAccounts(pool: Dict<int>, index: Dict<seq<Holding>>, es: seq<Entry>)
    requires forall i :: 0 <= i < |es| ==> SplitsExactly(pool, index, es[i])
    ensures Counted(ResolveAll(pool, index, es)) == SumQty(es)
  {
    if es != [] {
      var init := es[..|es| - 1];
      assert forall i :: 0 <= i < |init| ==> init[i] == es[i];
      ResolveAllAccounts(pool, index, init);
      ResolveAccounts(ResolveAll(pool, index, init), pool, index, es[|es| - 1]);
    }
  }

  /** Whatever the pool and the configured decks hold, one line adds at
      least its quantity to the copies the reports account for; a short
      line's available row, if any, is the pool's positive amount, which is
      below the line's quantity. */
  lemma ResolveCovers(t: Tallies, pool: Dict<int>, index: Dict<seq<Holding>>, e: Entry)
    ensures Counted(Resolve(t, pool, index, e)) >= Counted(t) + e.qty
    ensures var t' := Resolve(t, pool, index, e);
            Get(pool, e.name, 0) < e.qty ==>
              forall i :: |t.inDeck| <= i < |t'.inDeck| ==>
                t'.inDeck[i] == Entry(Get(pool, e.name, 0), e.name) && 0 < t'.inDeck[i].qty < e.qty
  {
    ResolveCounted(t, pool, index, e);
  }


  /** For every pool and index, the available, still-missing and borrowable
      amounts cover at least the deck's number of cards. */
  lemma {:induction false} ResolveAllCovers(pool: Dict<int>, index: Dict<seq<Holding>>, es: seq<Entry>)
    ensures Counted(ResolveAll(pool, index, es)) >= SumQty(es)
  {
    if es != [] {
      var init := es[..|es| - 1];
      ResolveAllCovers(pool, index, init);
      ResolveCovers(ResolveAll(pool, index, init), pool, index, es[|es| - 1]);
    }
  }

  /** Every row of the reports is about a card of the target deck, and the
      per-deck lists have distinct deck names. */
  lemma {:induction false} ResolveAllRows(pool: Dict<int>, index: Dict<seq<Holding>>, es: seq<Entry>)
    ensures var t := ResolveAll(pool, index, es);
            && (forall i :: 0 <= i < |t.missing| ==> Mentions(es, t.missing[i].card))
            && (forall i :: 0 <= i < |t.borrowable| ==> Mentions(es, t.borrowable[i].card))
            && (forall i :: 0 <= i < |t.inDeck| ==> Mentions(es, t.inDeck[i].name))
            && UniqueKeys(t.byDeck)
  {
    if es != [] {
      var init := es[..|es| - 1];
      var e := es[|es| - 1];
      var prev := ResolveAll(pool, index, init);
      var t := ResolveAll(pool, index, es);
      ResolveAllRows(pool, index, init);
      ResolveEntry(prev, pool, index, e);
      forall name | Mentions(init, name) ensures Mentions(es, name) {
        var i :| 0 <= i < |init| && init[i].name == name;
        assert es[i] == init[i];
      }
      assert Mentions(es, e.name) by { assert es[|es| - 1].name == e.name; }
      forall i | 0 <= i < |t.missing| ensures Mentions(es, t.missing[i].card) {
        if i < |prev.missing| { assert t.missing[i] == prev.missing[i]; }
      }
      forall i | 0 <= i < |t.borrowable| ensures Mentions(es, t.borrowable[i].card) {
        if i < |prev.borrowable| { assert t.borrowable[i] == prev.borrowable[i]; }
      }
      forall i | 0 <= i < |t.inDeck| ensures Mentions(es, t.inDeck[i].name) {
        if i < |prev.inDeck| { assert t.inDeck[i] == prev.inDeck[i]; }
      }
      var have := Get(pool, e.name, 0);
      if have < e.qty {
        RecordNeedsTotal(prev.byDeck, Get(index, e.name, []), e.name, e.qty - have);
      }
    }
  }

  /** One line adds as much to the per-deck lists as to the loans. */
  lemma ResolveLoans(t: Tallies, pool: Dict<int>, index: Dict<seq<Holding>>, e: Entry)
    requires forall j :: 0 <= j < |Get(index, e.name, [])| ==> Get(index, e.name, [])[j].qty > 0
    ensures var t' := Resolve(t, pool, index, e);
            TotalOf(t'.byDeck, Shown) - SumOf(t'.borrowable, BorrowTotal)
            == TotalOf(t.byDeck, Shown) - SumOf(t.borrowable, BorrowTotal)
  {
    var have := Get(pool, e.name, 0);
    if have < e.qty {
      var hs := Get(index, e.name, []);
      RecordNeedsTotal(t.byDeck, hs, e.name, e.qty - have);
      BorrowableSign(hs, e.qty - have);
      var b := Borrowable(hs, e.qty - have);
      if b > 0 {
        SumOfSnoc(t.borrowable, Borrow(e.name, b, Sources(hs, e.qty - have)), BorrowTotal);
      }
    }
  }

  /** With positive deck quantities, the per-deck lists hand out exactly
      the borrowable amounts: their `min(qty, missing)` sum is the sum of
      the loans. */
  lemma {:induction false} ResolveAllLoans(pool: Dict<int>, index: Dict<seq<Holding>>, es: seq<Entry>)
    requires forall card, j :: 0 <= j < |Get(index, card, [])| ==> Get(index, card, [])[j].qty > 0
    ensures var t := ResolveAll(pool, index, es);
            TotalOf(t.byDeck, Shown) == SumOf(t.borrowable, BorrowTotal)
  {
    if es != [] {
      var init := es[..|es| - 1];
      var e := es[|es| - 1];
      ResolveAllLoans(pool, index, init);
      ResolveLoans(ResolveAll(pool, index, init), pool, index, e);
    }
  }

  // ---------------------------------------------------------------------
  // The report
  // ---------------------------------------------------------------------

  /** One deck of the per-deck part: its name, the amount it could lend and
      its recorded cards ordered by name. */
  datatype DeckNeeds = DeckNeeds(deck: string, total: int, cards: seq<Need>)

  /** The part printed only when some card can be borrowed. */
  datatype Borrowing = Borrowing(total: int, cards: seq<Borrow>, byDeck: seq<DeckNeeds>)

  /** The printed report: the number of cards in the deck; the available
      lines in text order and their total; the still-missing cards by name
      and their total; and, when some card can be borrowed, the loans. */
  datatype Report = Report(totalCards: int,
                           totalAvailable: int, available: seq<string>,
                           totalMissing: int, missing: seq<Shortfall>,
                           borrowing: Option<Borrowing>)

  predicate ShortfallLe(a: Shortfall, b: Shortfall) { StrLe(a.card, b.card) }
  predicate BorrowLe(a: Borrow, b: Borrow) { StrLe(a.card, b.card) }
  predicate NeedLe(a: Need, b: Need) { StrLe(a.card, b.card) }

  /** `sorted(cards_by_deck.items())`: the deck names are distinct, so the
      pairs compare by name alone. */
  predicate DeckLe(a: Item<seq<Need>>, b: Item<seq<Need>>) { StrLe(a.key, b.key) }

  function DeckTotal(d: DeckNeeds): int { d.total }

  function Rollup(item: Item<seq<Need>>): DeckNeeds {
    DeckNeeds(item.key, SumOf(item.val, Shown), SortBy(item.val, NeedLe))
  }

  function Rollups(items: seq<Item<seq<Need>>>): seq<DeckNeeds> {
    seq(|items|, i requires 0 <= i < |items| => Rollup(items[i]))
  }

  /** What the command prints for a resolved deck of `totalCards` cards. */
  function MakeReport(totalCards: int, t: Tallies): Report {
    Report(totalCards,
           SumQty(t.inDeck), SortBy(FormatAll(t.inDeck), StrLe),
           SumOf(t.missing, ShortfallQty), SortBy(t.missing, ShortfallLe),
           if t.borrowable == [] then None
           else Some(Borrowing(SumOf(t.borrowable, BorrowTotal), SortBy(t.borrowable, BorrowLe),
                               Rollups(SortBy(t.byDeck, DeckLe)))))
  }

  /** The whole check: the configured decks are parsed first, then the
      available cards, then the target deck; the first line that fails to
      parse ends it. */
  function MissingCards(deck: seq<string>, availableCards: seq<string>, configDecks: seq<Deck<string>>): Result<Report> {
    match ParseDecks(configDecks)
    case Malformed(l) => Malformed(l)
    case Ok(ds) =>
      match ParseAll(availableCards)
      case Malformed(l) => Malformed(l)
      case Ok(pool) =>
        match ParseAll(deck)
        case Malformed(l) => Malformed(l)
        case Ok(es) => Ok(MakeReport(SumQty(es), ResolveAll(AssignAll([], pool), IndexDecks(ds), es)))
  }

  /** The available lines are printed in text order, and their total is the
      sum of the quantities they read back as. */
  lemma AvailableReport(totalCards: int, t: Tallies)
    ensures var r := MakeReport(totalCards, t);
            && multiset(r.available) == multiset(FormatAll(t.inDeck))
            && SortedBy(r.available, StrLe)
            && ParseAll(r.available).Ok?
            && SumQty(ParseAll(r.available).value) == r.totalAvailable
  {
    var r := MakeReport(totalCards, t);
    var formatted := FormatAll(t.inDeck);
    StrLeTotalPreorder();
    SortBySorted(formatted, StrLe);
    ParseFormatAll(t.inDeck);
    ParseAllSpec(formatted);
    ParseAllSpec(r.available);
    forall i | 0 <= i < |r.available| ensures ParseEntry(r.available[i]).Some? {
      assert r.available[i] in multiset(formatted);
    }
    ParsedTotal(r.available);
    ParsedTotal(formatted);
    SumOfPermutation(formatted, r.available, LineQty);
  }

  /** The still-missing cards are printed by name, and their total is the
      sum of the printed rows. */
  lemma MissingReport(totalCards: int, t: Tallies)
    ensures var r := MakeReport(totalCards, t);
            && multiset(r.missing) == multiset(t.missing)
            && SortedBy(r.missing, ShortfallLe)
            && SumOf(r.missing, ShortfallQty) == r.totalMissing
  {
    KeyOrder(ShortfallLe, (s: Shortfall) => s.card);
    SortBySorted(t.missing, ShortfallLe);
    SumOfPermutation(t.missing, SortBy(t.missing, ShortfallLe), ShortfallQty);
  }

  /** The loan part is printed exactly when some card can be borrowed; the
      loans are printed by name and their total is the sum of the printed
      rows. */
  lemma BorrowingReport(totalCards: int, t: Tallies)
    ensures var r := MakeReport(totalCards, t);
            && (r.borrowing.Some? <==> t.borrowable != [])
            && (r.borrowing.Some? ==>
                  && multiset(r.borrowing.value.cards) == multiset(t.borrowable)
                  && SortedBy(r.borrowing.value.cards, BorrowLe)
                  && SumOf(r.borrowing.value.cards, BorrowTotal) == r.borrowing.value.total
                  && r.borrowing.value.byDeck == Rollups(SortBy(t.byDeck, DeckLe)))
  {
    KeyOrder(BorrowLe, (b: Borrow) => b.card);
    SortBySorted(t.borrowable, BorrowLe);
    SumOfPermutation(t.borrowable, SortBy(t.borrowable, BorrowLe), BorrowTotal);
  }

  function ItemTotal(item: Item<seq<Need>>): int { SumOf(item.val, Shown) }

  lemma {:induction false} TotalOfItems(d: Dict<seq<Need>>)
    ensures TotalOf(d, Shown) == SumOf(d, ItemTotal)
  {
    if d != [] {
      TotalOfItems(d[1..]);
      assert d == [d[0]] + d[1..];
      SumOfAppend([d[0]], d[1..], ItemTotal);
      assert [d[0]][..0] == [];
    }
  }

  function ItemKey(item: Item<seq<Need>>): string { item.key }

  /** The deck blocks come in ascending name order, each deck once. */
  lemma RollupOrder(d: Dict<seq<Need>>)
    requires UniqueKeys(d)
    ensures var rs := Rollups(SortBy(d, DeckLe));
            && |rs| == |d|
            && forall i, j :: 0 <= i < j < |rs| ==> StrLe(rs[i].deck, rs[j].deck) && rs[i].deck != rs[j].deck
  {
    var sorted := SortBy(d, DeckLe);
    KeyOrder(DeckLe, ItemKey);
    SortBySorted(d, DeckLe);
    UniqueKeysDistinct(d);
    DistinctPermutation(d, sorted, ItemKey);
  }

  /** There is a block for exactly the decks that were recorded. */
  lemma RollupDecks(d: Dict<seq<Need>>, deck: string)
    ensures HasKey(d, deck) <==> deck in BlockDecks(Rollups(SortBy(d, DeckLe)))
  {
    RollupKeys(d, SortBy(d, DeckLe), deck);
  }

  function BlockDecks(rs: seq<DeckNeeds>): set<string> {
    set r | r in rs :: r.deck
  }

  lemma RollupKeys(d: Dict<seq<Need>>, items: seq<Item<seq<Need>>>, deck: string)
    requires multiset(items) == multiset(d)
    ensures HasKey(d, deck) <==> deck in BlockDecks(Rollups(items))
  {
    var rs := Rollups(items);
    HasKeyIndex(d, deck);
    if HasKey(d, deck) {
      var p :| 0 <= p < |d| && d[p].key == deck;
      assert d[p] in multiset(items);
      var i :| 0 <= i < |items| && items[i] == d[p];
      assert rs[i].deck == deck;
      assert rs[i] in rs;
    }
    if deck in BlockDecks(rs) {
      var r :| r in rs && r.deck == deck;
      var i :| 0 <= i < |rs| && rs[i] == r;
      assert items[i] in multiset(d);
    }
  }

  /** Each block prints the deck's recorded cards ordered by name, and its
      total is the sum of `min(qty_in_deck, missing)` over them. */
  lemma RollupBlock(d: Dict<seq<Need>>, i: int)
    requires UniqueKeys(d) && 0 <= i < |d|
    ensures var rs := Rollups(SortBy(d, DeckLe));
            && multiset(rs[i].cards) == multiset(Get(d, rs[i].deck, []))
            && SortedBy(rs[i].cards, NeedLe)
            && rs[i].total == SumOf(rs[i].cards, Shown)
  {
    var sorted := SortBy(d, DeckLe);
    var rs := Rollups(sorted);
    assert sorted[i] in multiset(d);
    var p :| 0 <= p < |d| && d[p] == sorted[i];
    GetAt(d, p, []);
    KeyOrder(NeedLe, (n: Need) => n.card);
    SortBySorted(sorted[i].val, NeedLe);
    SumOfPermutation(sorted[i].val, rs[i].cards, Shown);
  }

  /** The blocks' totals add up to everything recorded. */
  lemma RollupTotal(d: Dict<seq<Need>>)
    ensures SumOf(Rollups(SortBy(d, DeckLe)), DeckTotal) == TotalOf(d, Shown)
  {
    var sorted := SortBy(d, DeckLe);
    TotalOfItems(d);
    SumOfPermutation(d, sorted, ItemTotal);
    SumOfPointwise(sorted, ItemTotal, Rollups(sorted), DeckTotal);
  }

  /** When every target line's copies split exactly, the printed totals of
      available, still-missing and borrowable cards add up to the number of
      cards in the deck. */
  lemma MissingCardsAccounting(deck: seq<string>, availableCards: seq<string>, configDecks: seq<Deck<string>>)
    requires ParseDecks(configDecks).Ok? && ParseAll(availableCards).Ok? && ParseAll(deck).Ok?
    requires forall i :: 0 <= i < |ParseAll(deck).value| ==>
               SplitsExactly(AssignAll([], ParseAll(availableCards).value),
                             IndexDecks(ParseDecks(configDecks).value), ParseAll(deck).value[i])
    ensures var r := MissingCards(deck, availableCards, configDecks);
            r.Ok? &&
            r.value.totalAvailable + r.value.totalMissing
              + (if r.value.borrowing.Some? then r.value.borrowing.value.total else 0)
            == r.value.totalCards
  {
    var pool := AssignAll([], ParseAll(availableCards).value);
    var index := IndexDecks(ParseDecks(configDecks).value);
    var es := ParseAll(deck).value;
    ResolveAllAccounts(pool, index, es);
    BorrowingReport(SumQty(es), ResolveAll(pool, index, es));
  }

  /** For every input the command reads, the printed totals of available,
      still-missing and borrowable cards add up to at least the printed
      number of cards. */
  lemma MissingCardsCovers(deck: seq<string>, availableCards: seq<string>, configDecks: seq<Deck<string>>)
    ensures var r := MissingCards(deck, availableCards, configDecks);
            r.Ok? ==>
              r.value.totalAvailable + r.value.totalMissing
                + (if r.value.borrowing.Some? then r.value.borrowing.value.total else 0)
              >= r.value.totalCards
  {
    if ParseDecks(configDecks).Ok? && ParseAll(availableCards).Ok? && ParseAll(deck).Ok? {
      var pool := AssignAll([], ParseAll(availableCards).value);
      var index := IndexDecks(ParseDecks(configDecks).value);
      var es := ParseAll(deck).value;
      ResolveAllCovers(pool, index, es);
      BorrowingReport(SumQty(es), ResolveAll(pool, index, es));
    }
  }

  /** When every configured deck line has a positive quantity, the per-deck
      blocks hand out exactly the printed borrowable total. */
  lemma MissingCardsLoans(deck: seq<string>, availableCards: seq<string>, configDecks: seq<Deck<string>>)
    requires ParseDecks(configDecks).Ok? && ParseAll(availableCards).Ok? && ParseAll(deck).Ok?
    requires var ds := ParseDecks(configDecks).value;
             forall k, j :: 0 <= k < |ds| && 0 <= j < |ds[k].cards| ==> ds[k].cards[j].qty > 0
    ensures var r := MissingCards(deck, availableCards, configDecks);
            r.Ok? && r.value.borrowing.Some? ==>
              SumOf(r.value.borrowing.value.byDeck, DeckTotal) == r.value.borrowing.value.total
  {
    var pool := AssignAll([], ParseAll(availableCards).value);
    var ds := ParseDecks(configDecks).value;
    var index: Dict<seq<Holding>> := IndexDecks(ds);
    var es := ParseAll(deck).value;
    forall card: string, j: int | 0 <= j < |Get(index, card, [])| ensures Get(index, card, [])[j].qty > 0 {
      IndexDecksGet(ds, card);
      var h := Get(index, card, [])[j];
      HoldingsMember(ds, card, h);
      var k :| 0 <= k < |ds| && HoldsLine(ds[k], card, h);
    }
    var t := ResolveAll(pool, index, es);
    ResolveAllLoans(pool, index, es);
    BorrowingReport(SumQty(es), t);
    RollupTotal(t.byDeck);
  }

  lemma ForestTarget()
    ensures ParseAll(["3 Forest"]) == Ok([Entry(3, "Forest")])
  {
    assert IntToDecimal(3) == "3";
    assert FormatEntry(Entry(3, "Forest")) == "3 Forest";
    ParseSingle(Entry(3, "Forest"), "3 Forest");
  }

  lemma ForestPool()
    ensures ParseAll(["1 Forest"]) == Ok([Entry(1, "Forest")])
    ensures FormatAll([Entry(1, "Forest")]) == ["1 Forest"]
  {
    assert IntToDecimal(1) == "1";
    assert FormatEntry(Entry(1, "Forest")) == "1 Forest";
    ParseSingle(Entry(1, "Forest"), "1 Forest");
  }

  lemma ForestConfig()
    ensures ParseDecks([Deck("Commander A", ["4 Forest"])]) == Ok([Deck("Commander A", [Entry(4, "Forest")])])
  {
    assert IntToDecimal(4) == "4";
    assert FormatEntry(Entry(4, "Forest")) == "4 Forest";
    ParseSingle(Entry(4, "Forest"), "4 Forest");
    var decks := [Deck("Commander A", ["4 Forest"])];
    assert decks[..0] == [];
    var none: seq<Deck<Entry>> := [];
    assert none + [Deck("Commander A", [Entry(4, "Forest")])] == [Deck("Commander A", [Entry(4, "Forest")])];
  }

  lemma ForestTallies()
    ensures ResolveAll(AssignAll([], [Entry(1, "Forest")]), IndexDecks([Deck("Commander A", [Entry(4, "Forest")])]),
                       [Entry(3, "Forest")])
            == Tallies([], [Borrow("Forest", 2, [Holding("Commander A", 2)])], [Entry(1, "Forest")],
                       [Item("Commander A", [Need("Forest", 4, 2)])])
  {
    var ds := [Deck("Commander A", [Entry(4, "Forest")])];
    assert IndexDecks(ds) == [Item("Forest", [Holding("Commander A", 4)])] by {
      assert ds[..0] == [];
      assert ds[0].cards[..0] == [];
      AppendEmpty("Forest", Holding("Commander A", 4));
    }
    assert AssignAll([], [Entry(1, "Forest")]) == [Item("Forest", 1)] by {
      assert [Entry(1, "Forest")][..0] == [];
    }
    var hs := [Holding("Commander A", 4)];
    assert Borrowable(hs, 2) == 2 by { assert hs[..0] == []; }
    assert Sources(hs, 2) == [Holding("Commander A", 2)];
    assert RecordNeeds([], hs, "Forest", 2) == [Item("Commander A", [Need("Forest", 4, 2)])] by {
      assert hs[..0] == [];
      AppendEmpty("Commander A", Need("Forest", 4, 2));
    }
    var es := [Entry(3, "Forest")];
    assert es[..0] == [];
  }

  lemma ForestReport()
    ensures MakeReport(3, Tallies([], [Borrow("Forest", 2, [Holding("Commander A", 2)])], [Entry(1, "Forest")],
                                  [Item("Commander A", [Need("Forest", 4, 2)])]))
            == Report(3, 1, ["1 Forest"], 0, [],
                      Some(Borrowing(2, [Borrow("Forest", 2, [Holding("Commander A", 2)])],
                                     [DeckNeeds("Commander A", 2, [Need("Forest", 4, 2)])])))
  {
    ForestPool();
    var t := Tallies([], [Borrow("Forest", 2, [Holding("Commander A", 2)])], [Entry(1, "Forest")],
                     [Item("Commander A", [Need("Forest", 4, 2)])]);
    assert SumQty(t.inDeck) == 1 by { assert t.inDeck[..0] == []; }
    assert SumOf(t.borrowable, BorrowTotal) == 2 by { assert t.borrowable[..0] == []; }
    assert SumOf([Need("Forest", 4, 2)], Shown) == 2 by { assert [Need("Forest", 4, 2)][..0] == []; }
    SortBySingle("1 Forest", StrLe);
    SortBySingle(t.borrowable[0], BorrowLe);
    SortBySingle(t.byDeck[0], DeckLe);
    SortBySingle(Need("Forest", 4, 2), NeedLe);
    assert Rollups(t.byDeck) == [DeckNeeds("Commander A", 2, [Need("Forest", 4, 2)])];
  }

  /** A deck needing three Forests, a pool with one and a configured deck
      holding four: one Forest is available, none is still missing, and two
      can be taken from that deck. */
  lemma ForestExample(deck: seq<string>, availableCards: seq<string>, configDecks: seq<Deck<string>>)
    requires deck == ["3 Forest"] && availableCards == ["1 Forest"]
    requires configDecks == [Deck("Commander A", ["4 Forest"])]
    ensures MissingCards(deck, availableCards, configDecks)
            == Ok(Report(3, 1, ["1 Forest"], 0, [],
                         Some(Borrowing(2, [Borrow("Forest", 2, [Holding("Commander A", 2)])],
                                        [DeckNeeds("Commander A", 2, [Need("Forest", 4, 2)])]))))
  {
    ForestTarget();
    ForestPool();
    ForestConfig();
    ForestTallies();
    ForestReport();
    var es := [Entry(3, "Forest")];
    assert SumQty(es) == 3 by { assert es[..0] == []; }
  }

  /** Two decks each holding two copies of a card the deck needs two of:
      the loan counts four, more than the two missing, and nothing is
      reported still missing. */
  lemma OverCountExample()
    ensures var hs := [Holding("A", 2), Holding("B", 2)];
            var t := Resolve(Tallies([], [], [], []), [], [Item("Arcane Signet", hs)], Entry(2, "Arcane Signet"));
            && t.missing == []
            && t.borrowable == [Borrow("Arcane Signet", 4, hs)]
            && Counted(t) == 4
  {
    var hs := [Holding("A", 2), Holding("B", 2)];
    assert Borrowable(hs, 2) == 4 by {
      assert hs[..1][..0] == [];
      assert hs[..1] == [Holding("A", 2)];
    }
    assert Sources(hs, 2) == hs;
    var b := [Borrow("Arcane Signet", 4, hs)];
    assert SumOf(b, BorrowTotal) == 4 by { assert b[..0] == []; }
  }

  // ---------------------------------------------------------------------
  // The command, loop by loop
  // ---------------------------------------------------------------------

  /** The inner loop over one configured deck's lines. */
  method RecordDeck(index: Dict<seq<Holding>>, deckName: string, cards: seq<string>)
    returns (r: Result<Dict<seq<Holding>>>)
    ensures ParseAll(cards).Malformed? ==> r == Malformed(ParseAll(cards).line)
    ensures ParseAll(cards).Ok? ==> r == Ok(Record(index, deckName, ParseAll(cards).value))
  {
    var cardsInDecks := index;
    ghost var es: seq<Entry> := [];
    for i := 0 to |cards|
      invariant ParseAll(cards[..i]) == Ok(es)
      invariant cardsInDecks == Record(index, deckName, es)
    {
      ParseAllSnoc(cards, i);
      var parsed := ParseEntry(cards[i]);
      if parsed.None? {
        ParseAllMalformedPrefix(cards, i + 1);
        return Malformed(cards[i]);
      }
      var e := parsed.value;
      cardsInDecks := Append(cardsInDecks, e.name, Holding(deckName, e.qty));
      ghost var prev := es;
      es := es + [e];
      assert es[..|es| - 1] == prev;
    }
    assert cards[..|cards|] == cards;
    return Ok(cardsInDecks);
  }

  /** `cards_in_decks`, built over the configured decks in order. */
  method IndexConfigDecks(configDecks: seq<Deck<string>>) returns (r: Result<Dict<seq<Holding>>>)
    ensures ParseDecks(configDecks).Malformed? ==> r == Malformed(ParseDecks(configDecks).line)
    ensures ParseDecks(configDecks).Ok? ==> r == Ok(IndexDecks(ParseDecks(configDecks).value))
  {
    var cardsInDecks: Dict<seq<Holding>> := [];
    ghost var ds: seq<Deck<Entry>> := [];
    for k := 0 to |configDecks|
      invariant ParseDecks(configDecks[..k]) == Ok(ds)
      invariant cardsInDecks == IndexDecks(ds)
    {
      ParseDecksSnoc(configDecks, k);
      var deck := configDecks[k];
      var recorded := RecordDeck(cardsInDecks, deck.name, deck.cards);
      if recorded.Malformed? {
        ParseDecksMalformedPrefix(configDecks, k + 1);
        return Malformed(recorded.line);
      }
      cardsInDecks := recorded.value;
      IndexDecksSnoc(ds, Deck(deck.name, ParseAll(deck.cards).value));
      ds := ds + [Deck(deck.name, ParseAll(deck.cards).value)];
    }
    assert configDecks[..|configDecks|] == configDecks;
    return Ok(cardsInDecks);
  }

  /** `available_dict`: a later line for a card overwrites an earlier one. */
  method ReadPool(availableCards: seq<string>) returns (r: Result<Dict<int>>)
    ensures ParseAll(availableCards).Malformed? ==> r == Malformed(ParseAll(availableCards).line)
    ensures ParseAll(availableCards).Ok? ==> r == Ok(AssignAll([], ParseAll(availableCards).value))
  {
    var availableDict: Dict<int> := [];
    ghost var es: seq<Entry> := [];
    for i := 0 to |availableCards|
      invariant ParseAll(availableCards[..i]) == Ok(es)
      invariant availableDict == AssignAll([], es)
    {
      ParseAllSnoc(availableCards, i);
      var parsed := ParseEntry(availableCards[i]);
      if parsed.None? {
        ParseAllMalformedPrefix(availableCards, i + 1);
        return Malformed(availableCards[i]);
      }
      var e := parsed.value;
      AssignAllSnoc([], es, e);
      availableDict := Put(availableDict, e.name, e.qty);
      es := es + [e];
    }
    assert availableCards[..|availableCards|] == availableCards;
    return Ok(availableDict);
  }

  /** The loop recording a short card under every deck holding it. */
  method AppendNeeds(byDeck: Dict<seq<Need>>, inOtherDecks: seq<Holding>, card: string, missing: int)
    returns (cardsByDeck: Dict<seq<Need>>)
    ensures cardsByDeck == RecordNeeds(byDeck, inOtherDecks, card, missing)
  {
    cardsByDeck := byDeck;
    for i := 0 to |inOtherDecks|
      invariant cardsByDeck == RecordNeeds(byDeck, inOtherDecks[..i], card, missing)
    {
      assert inOtherDecks[..i + 1][..i] == inOtherDecks[..i];
      var h := inOtherDecks[i];
      cardsByDeck := Append(cardsByDeck, h.deck, Need(card, h.qty, missing));
    }
    assert inOtherDecks[..|inOtherDecks|] == inOtherDecks;
  }

  /** The body of the loop over the target deck, for one parsed line. */
  method ResolveCard(t: Tallies, pool: Dict<int>, index: Dict<seq<Holding>>, e: Entry) returns (t': Tallies)
    ensures t' == Resolve(t, pool, index, e)
  {
    var completelyMissing, partiallyMissing, availableInDeck, cardsByDeck := t.missing, t.borrowable, t.inDeck, t.byDeck;
    var availableQuantity := Get(pool, e.name, 0);
    if availableQuantity < e.qty {
      var missingQuantity := e.qty - availableQuantity;
      var inOtherDecks := Get(index, e.name, []);
      var totalAvailableInOtherDecks := Borrowable(inOtherDecks, missingQuantity);
      var stillMissing := missingQuantity - totalAvailableInOtherDecks;
      cardsByDeck := AppendNeeds(cardsByDeck, inOtherDecks, e.name, missingQuantity);
      if stillMissing > 0 {
        completelyMissing := completelyMissing + [Shortfall(e.name, stillMissing)];
      }
      if totalAvailableInOtherDecks > 0 {
        var deckInfo := Sources(inOtherDecks, missingQuantity);
        partiallyMissing := partiallyMissing + [Borrow(e.name, totalAvailableInOtherDecks, deckInfo)];
      }
      if availableQuantity > 0 {
        availableInDeck := availableInDeck + [Entry(availableQuantity, e.name)];
      }
    } else {
      availableInDeck := availableInDeck + [e];
    }
    t' := Tallies(completelyMissing, partiallyMissing, availableInDeck, cardsByDeck);
  }

  /** The loop over the target deck's lines. */
  method ResolveDeck(deck: seq<string>, pool: Dict<int>, index: Dict<seq<Holding>>) returns (r: Result<Tallies>)
    ensures ParseAll(deck).Malformed? ==> r == Malformed(ParseAll(deck).line)
    ensures ParseAll(deck).Ok? ==> r == Ok(ResolveAll(pool, index, ParseAll(deck).value))
  {
    var t := Tallies([], [], [], []);
    ghost var es: seq<Entry> := [];
    for i := 0 to |deck|
      invariant ParseAll(deck[..i]) == Ok(es)
      invariant t == ResolveAll(pool, index, es)
    {
      ParseAllSnoc(deck, i);
      var parsed := ParseEntry(deck[i]);
      if parsed.None? {
        ParseAllMalformedPrefix(deck, i + 1);
        return Malformed(deck[i]);
      }
      var e := parsed.value;
      t := ResolveCard(t, pool, index, e);
      ghost var prev := es;
      es := es + [e];
      assert es[..|es| - 1] == prev;
    }
    assert deck[..|deck|] == deck;
    return Ok(t);
  }

  /** `check_missing_cards` once the three lists are read: the configured
      decks are indexed, the pool is read, the target deck is resolved and
      the report is made. */
  method CheckDeck(deck: seq<string>, availableCards: seq<string>, configDecks: seq<Deck<string>>)
    returns (r: Result<Report>)
    ensures r == MissingCards(deck, availableCards, configDecks)
  {
    var cardsInDecks := IndexConfigDecks(configDecks);
    if cardsInDecks.Malformed? {
      return Malformed(cardsInDecks.line);
    }
    var availableDict := ReadPool(availableCards);
    if availableDict.Malformed? {
      return Malformed(availableDict.line);
    }
    var tallies := ResolveDeck(deck, availableDict.value, cardsInDecks.value);
    if tallies.Malformed? {
      return Malformed(tallies.line);
    }
    ParsedTotal(deck);
    var totalCards := SumOf(deck, LineQty);
    return Ok(MakeReport(totalCards, tallies.value));
  }
}
