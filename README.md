# mtg-utils card reconciliation, modelled in Dafny

mtg-utils keeps a Magic: The Gathering collection in step with the decks built
from it. Card lists are text files of lines `"<quantity> <card name>"`. This
project models the parts of the tool that reconcile quantities:

- **Updating the card library** (`update_card_library.py`). The purchase file
  is counted into `"<count> <line>"` lines. The owned library is read into a
  dict: a later line for a card overwrites an earlier one. The purchases are
  added on top. Every built deck's usage is summed. Each deck gets a warning
  for every line the inventory cannot cover on its own. What is left over
  (inventory minus usage, where positive) is written out in library order.
- **Checking a deck for missing cards** (`check_missing_cards.py`).
  - Every configured deck is indexed: card → list of (deck, quantity).
  - The available-cards file is read into a dict.
  - Each target line is resolved. A covered line is available in full. For a
    short line, the report records the shortfall still missing, what the other
    decks could lend (`min(qty, missing)` per holding deck) and a per-deck
    breakdown.
  - The report prints each part sorted by name, with its total.
- **Comparing two decks** (`compare_decks.py`).
  - Both deck files are read into dicts. Lines without a space are skipped.
  - Every card of either deck is sorted into three lists: common (at the
    smaller quantity), only in deck 1, and only in deck 2 (the excess).
  - Each list is printed by name with its total.
- **The collection service client** (`moxfield_api.py`), once the data has
  been fetched:
  - The binder's cards are summed per name. The library is ordered with the
    five snow-covered basics last.
  - A deck's mainboard lines are sorted as text, and the commanders are
    inserted in front.

Modules:

- `Cards`: the line codec. `split(' ', 1)`, `int()`, `str()`, and the
  `"<qty> <name>"` format with its round trip. `ParseAll`/`ParseDecks` stop at
  the first line that does not parse. This models Python's `IndexError`/`ValueError`
  as `Malformed(line)`.
- `PyDict`: Python's insertion-ordered `dict` as a list of items. It covers
  plain assignment (`AssignAll`) and `+=` / `Counter` accumulation (`AddAll`).
- `Ordering`: Python string order and a stable sort `SortBy`.
- `Lists`: order-independence of `sum(...)`.
- One module per command file, plus `MoxfieldApi`.

Each loop of the source that builds a dict or a list is a method with a
`for`/`while` loop and invariants. The method is proved equal to a recursive
specification function, and the lemmas state what the source promises about
that function. The loops that only print are not loops in the model: what
they print is returned as a value instead. For `check_missing_cards.py` that
value is built by the functions `MakeReport` and `Rollups`. For
`compare_decks.py`, `CompareDeckFiles` returns the three sorted lists with
their totals as a `Comparison`, specified by the predicates `Listed` and
`Compared`.

Two behaviours of the source that the model keeps as written:

- In the missing-card check, the target deck is not excluded from the
  index of configured decks.
- The borrowable amount of a card sums `min(qty, missing)` over every
  holding deck. It can therefore exceed the number missing, and "still
  missing" can go negative, in which case nothing is reported missing
  (`OverCountExample`). For every input the printed totals cover at least
  the deck's number of cards (`MissingCardsCovers`). The exact identity
  `MissingCardsAccounting` is proved under the condition `SplitsExactly`,
  which excludes the over-count.

## Model

| member | source | states |
|---|---|---|
| Cards.SplitFirstSpace | mtg_utils/commands/update_card_library.py:71-73 | `split(' ', 1)` yields two parts exactly when the line has a space; the head has no space and head + " " + tail is the line |
| Cards.SplitJoin | mtg_utils/commands/update_card_library.py:71-73 | a line joined from a space-free head and any tail (names may hold spaces) splits back into those two parts |
| Cards.IntToDecimal | mtg_utils/commands/update_card_library.py:55 | `str(q)` of a quantity has no space, has no `+`, starts with `-` iff q is negative, has digits with no leading zero after the sign, and `int()` reads it back as q |
| Cards.NatToDecimal | mtg_utils/commands/update_card_library.py:131 | the decimal spelling of a natural number is non-empty, all digits, has no leading zero (only 0 itself starts with `0`), and has that value |
| Cards.ParseFormatEntry | mtg_utils/commands/update_card_library.py:131 | a line `f"{quantity} {name}"` parses back (split, int) to the same quantity and name |
| Cards.ParseFormatAll | mtg_utils/commands/update_card_library.py:131 | a written list of lines parses back to exactly the entries it was made from |
| Cards.ParseAllSpec | mtg_utils/commands/update_card_library.py:70-74 | reading a list succeeds iff every line parses, and then yields one entry per line, in order, each the parse of its line |
| Cards.ParseAllFailure | mtg_utils/commands/update_card_library.py:70-74 | a failed read reports a line that does not parse, all lines before it parsing |
| Cards.ParseAllMalformedPrefix | mtg_utils/commands/update_card_library.py:70-74 | once a prefix of the lines fails, the whole read fails on the same line (the exception ends the loop) |
| Cards.ParseDecksSpec | mtg_utils/commands/update_card_library.py:92-98 | the decks' lines all parse iff every deck's do; the parsed decks keep their names and order, each with its parsed lines |
| Cards.ParseDecksFailure | mtg_utils/commands/update_card_library.py:92-98 | a failure over several decks is the failing line of the first deck that fails, every earlier deck parsing |
| Cards.ParseDecksMalformedPrefix | mtg_utils/commands/update_card_library.py:92-98 | once a prefix of the decks fails, the whole deck loop fails on the same line |
| Cards.ParsedTotal | mtg_utils/commands/check_missing_cards.py:95 | the total of a parsed list is the sum of `int(line.split(' ', 1)[0])` over its lines |
| Cards.LastQtyPermutation | mtg_utils/commands/compare_decks.py:63 | reordering a list whose names are distinct keeps each name's quantity |
| Cards.SumQtyPermutation | mtg_utils/commands/compare_decks.py:57-59 | a list's total quantity does not depend on its order |
| Cards.DistinctNamesPermutation | mtg_utils/utils/moxfield_api.py:63 | sorting a list with one line per card keeps one line per card |
| PyDict.KeysHasKey | mtg_utils/commands/compare_decks.py:30 | a name is among `d.keys()` iff it is a key of the dict |
| PyDict.GetPut | mtg_utils/commands/update_card_library.py:74 | after `d[k] = v`, `d.get(k)` is v and every other key reads as before; the keys are the old ones plus k |
| PyDict.PutKeys | mtg_utils/commands/update_card_library.py:74 | `d[k] = v` keeps key order: an existing key stays where it is, a new key goes to the end |
| PyDict.PutUnique | mtg_utils/commands/update_card_library.py:74 | assignment keeps each key once |
| PyDict.AddPut | mtg_utils/commands/update_card_library.py:83-86 | both branches of `if name in d: d[name] += q else: d[name] = q` store the old value (0 when absent) plus q |
| PyDict.AddQuantity | mtg_utils/commands/update_card_library.py:83-86 | the `+=`-or-assign step, as a method, is one accumulation step |
| PyDict.AssignAllGet | mtg_utils/commands/update_card_library.py:69-74 | after assigning a list of lines, a name holds the quantity of its last line (the old value without one); the keys are the old keys and the names in the list, each once |
| PyDict.AddAllGet | mtg_utils/commands/update_card_library.py:76-86 | after accumulating a list of lines, a name holds its old value plus the summed quantity of its lines; the keys are the old keys and the names in the list, each once |
| PyDict.AddAllTotal | mtg_utils/commands/update_card_library.py:76-86 | accumulation adds exactly the lines' total quantity to the dict's total |
| PyDict.AddAllEntries | mtg_utils/utils/moxfield_api.py:53-62 | accumulating from empty gives one item per name mentioned, holding that name's summed quantity, with the same total |
| PyDict.MentionsPermutation | mtg_utils/utils/moxfield_api.py:63 | sorting a list keeps the set of names it mentions |
| PyDict.TotalOfAppend | mtg_utils/commands/check_missing_cards.py:76 | appending to one key's list of a `defaultdict(list)` adds that value's amount to the dict's total |
| PyDict.GetSumTotal | mtg_utils/commands/compare_decks.py:37-39 | looking up, once each, every name of a list covering the dict's keys sums to the dict's total |
| Ordering.StrLeTotalPreorder | mtg_utils/commands/check_missing_cards.py:101 | Python's string `<=` is total and transitive |
| Ordering.SortBySorted | mtg_utils/utils/moxfield_api.py:34 | the sort's result is ordered by the key's order (and, by `SortBy`'s own contract, a permutation of its input) |
| Ordering.KeyOrder | mtg_utils/commands/compare_decks.py:63 | an order comparing a string key of each element, as `sorted(xs, key=lambda x: x[0])`, is a total preorder |
| MoxfieldApi.LibrarySortKey | mtg_utils/utils/moxfield_api.py:5-20 | the key of a line exists iff it has a space; its name is exactly the text after the first space; its group is 1 exactly for the five snow-covered basics and 0 otherwise |
| MoxfieldApi.LibrarySortKeyOfLine | mtg_utils/utils/moxfield_api.py:5-20 | the key of a formatted line is `(group, name)` of its card name; the quantity plays no part |
| MoxfieldApi.LibraryLeTotalPreorder | mtg_utils/utils/moxfield_api.py:17-20 | comparing `(group, name)` tuples is a total preorder |
| MoxfieldApi.SortLibrary | mtg_utils/utils/moxfield_api.py:63 | the library order is a permutation with every snow-covered basic after every other card and names ascending within each group |
| MoxfieldApi.LineLeOfFormatted | mtg_utils/utils/moxfield_api.py:63 | comparing two formatted lines by the key is comparing their entries by name key |
| MoxfieldApi.SortFormatted | mtg_utils/utils/moxfield_api.py:62-63 | sorting the formatted lines by `library_sort_key` equals sorting the entries by name key and then formatting them |
| MoxfieldApi.GetLibrary | mtg_utils/utils/moxfield_api.py:53-64 | the loop summing quantities per name, then format and sort, gives the formatted, library-ordered summed entries |
| MoxfieldApi.LibraryContents | mtg_utils/utils/moxfield_api.py:53-63 | the library has one line per card name in the binder, with that name's summed quantity, and the binder's total number of cards |
| MoxfieldApi.LibraryReadsBack | mtg_utils/utils/moxfield_api.py:62 | the library's lines read back as its entries |
| MoxfieldApi.MainboardLines | mtg_utils/utils/moxfield_api.py:28-34 | the mainboard loop and `deck_list.sort()` give the formatted mainboard sorted as text |
| MoxfieldApi.MainboardSorted | mtg_utils/utils/moxfield_api.py:34 | the sorted mainboard holds exactly the mainboard lines, in ascending text order |
| MoxfieldApi.InsertCommanders | mtg_utils/utils/moxfield_api.py:35-38 | `insert(i, "1 " + name)` for the i-th commander leaves the commanders in front, in order, and the earlier lines unchanged after them |
| MoxfieldApi.GetDeckList | mtg_utils/utils/moxfield_api.py:28-40 | the deck list is one "1 name" line per commander, in order, followed by the text-sorted mainboard lines |
| UpdateCardLibrary.Ones | mtg_utils/commands/update_card_library.py:54 | the Counter's input: one entry of quantity 1 per raw line, in order |
| UpdateCardLibrary.OnesCount | mtg_utils/commands/update_card_library.py:54 | counting a raw list gives each line its number of occurrences; the counts add up to the number of lines |
| UpdateCardLibrary.PurchaseCountsSpec | mtg_utils/commands/update_card_library.py:53-55 | the counted purchases hold every distinct raw line exactly once, with its number of occurrences, and add up to the number of raw lines |
| UpdateCardLibrary.ProcessPurchasedCards | mtg_utils/commands/update_card_library.py:40-62 | no purchase file: no purchases and no formatted file; otherwise the `"<count> <line>"` lines, and their text-sorted copy as the formatted file |
| UpdateCardLibrary.InventoryGet | mtg_utils/commands/update_card_library.py:68-86 | a card's inventory is the quantity of its last library line (0 without one) plus everything purchased of it; it holds exactly the cards named in either list |
| UpdateCardLibrary.UsedGet | mtg_utils/commands/update_card_library.py:89-104 | a card's used quantity is its summed quantity over every line of every deck; the used cards are exactly those some deck names |
| UpdateCardLibrary.DeckWarningsSpec | mtg_utils/commands/update_card_library.py:106-109 | a deck line is warned about iff the card's whole inventory quantity is below the line's quantity (not what other lines have taken); each warning carries that inventory quantity and comes from a deck line |
| UpdateCardLibrary.UnavailableSpec | mtg_utils/commands/update_card_library.py:111-112 | a deck is reported iff it has at least one warning, and a reported deck's list is never empty |
| UpdateCardLibrary.UnavailableGet | mtg_utils/commands/update_card_library.py:92-112 | a reported deck name holds the warnings of the last deck of that name that has any; no later deck of that name has warnings |
| UpdateCardLibrary.RemainingGet | mtg_utils/commands/update_card_library.py:122-128 | a card remains iff it is in the inventory and its quantity exceeds its usage, and then it remains with the difference |
| UpdateCardLibrary.RemainingEntries | mtg_utils/commands/update_card_library.py:122-131 | the remaining list has one entry per card, each with a positive leftover, and every card with a positive leftover is in it |
| UpdateCardLibrary.AvailableList | mtg_utils/commands/update_card_library.py:122-132 | the available lines are the remaining cards in library order, one line per card, each with its positive leftover, and every such card is there |
| UpdateCardLibrary.BuildInventory | mtg_utils/commands/update_card_library.py:68-86 | the two loops give the library lines assigned, then the purchases accumulated; a bad library line, then a bad purchase line, stops it |
| UpdateCardLibrary.TallyDeck | mtg_utils/commands/update_card_library.py:95-109 | one deck's loop adds its lines to the usage and warns for each line the inventory cannot cover, or stops at its first bad line |
| UpdateCardLibrary.TallyDecks | mtg_utils/commands/update_card_library.py:92-112 | the deck loop gives the summed usage and each deck's warnings under its name, or the first bad deck line |
| UpdateCardLibrary.RemainingCards | mtg_utils/commands/update_card_library.py:123-128 | the loop keeps inventory minus usage where positive, in inventory order |
| UpdateCardLibrary.CalculateAvailableCards | mtg_utils/commands/update_card_library.py:64-138 | the whole computation: the first bad line (library, purchases, decks), or the warnings and the library-ordered available lines |
| UpdateCardLibrary.SolRingExample | mtg_utils/commands/update_card_library.py:64-138 | one Sol Ring owned and one used by a deck leaves nothing available and raises no warning |
| CheckMissingCards.RecordGet | mtg_utils/commands/check_missing_cards.py:35-39 | one deck's lines append, for each card, a (deck, quantity) pair per line naming it, in line order |
| CheckMissingCards.IndexDecksGet | mtg_utils/commands/check_missing_cards.py:32-39 | the index lists, for every card, the pair of each configured line naming it, in configuration and then line order |
| CheckMissingCards.HoldingsMember | mtg_utils/commands/check_missing_cards.py:32-39 | a (deck, quantity) pair is listed for a card iff that deck has a line with that quantity of that card |
| CheckMissingCards.BorrowableSources | mtg_utils/commands/check_missing_cards.py:69 | the loan amount equals the sum of the per-deck `min(qty, missing)` shown in `deck_info`, one per holding deck |
| CheckMissingCards.BorrowableSign | mtg_utils/commands/check_missing_cards.py:69 | with non-negative deck quantities a loan is never negative; with positive ones there is a loan iff some deck holds the card |
| CheckMissingCards.RecordNeedsTotal | mtg_utils/commands/check_missing_cards.py:75-76 | recording a short card under its holding decks adds exactly its loan amount to the per-deck `min` totals, keeping deck names distinct |
| CheckMissingCards.ResolveEntry | mtg_utils/commands/check_missing_cards.py:55-92 | one line only appends to each report list, at most one row, about that card; missing and loan rows are positive |
| CheckMissingCards.ResolveCovered | mtg_utils/commands/check_missing_cards.py:90-92 | a line the pool covers is listed available in full and nowhere else |
| CheckMissingCards.ResolveUnheld | mtg_utils/commands/check_missing_cards.py:62-80 | a short line no configured deck holds is missing by exactly what the pool lacks, and nothing is borrowed |
| CheckMissingCards.ResolveStillMissingBound | mtg_utils/commands/check_missing_cards.py:72-80 | with non-negative deck quantities, the still-missing amount never exceeds what the pool lacks |
| CheckMissingCards.ResolveCounted | mtg_utils/commands/check_missing_cards.py:60-92 | a covered line adds its quantity to available + still missing + borrowable; a short line adds the positive parts of the pool's amount, of what is still missing and of the loan |
| CheckMissingCards.ResolveAccounts | mtg_utils/commands/check_missing_cards.py:60-92 | a line whose copies split exactly adds its quantity to available + still missing + borrowable |
| CheckMissingCards.ResolveAllAccounts | mtg_utils/commands/check_missing_cards.py:55-92 | when every line splits exactly, available + still missing + borrowable equals the deck's card count |
| CheckMissingCards.ResolveCovers | mtg_utils/commands/check_missing_cards.py:60-92 | for any pool and index, one line adds at least its quantity to available + still missing + borrowable; a short line's available row is the pool's amount, positive and below the line's quantity |
| CheckMissingCards.ResolveAllCovers | mtg_utils/commands/check_missing_cards.py:55-92 | for any pool and index, available + still missing + borrowable is at least the deck's card count |
| CheckMissingCards.ResolveAllRows | mtg_utils/commands/check_missing_cards.py:55-92 | every report row is about a card of the target deck, and the per-deck lists have distinct deck names |
| CheckMissingCards.ResolveLoans | mtg_utils/commands/check_missing_cards.py:62-85 | with positive deck quantities for the card, one line adds as much to the per-deck `min` totals as to the loan totals |
| CheckMissingCards.ResolveAllLoans | mtg_utils/commands/check_missing_cards.py:55-92 | with positive deck quantities, the per-deck lists hand out exactly the summed loans |
| CheckMissingCards.AvailableReport | mtg_utils/commands/check_missing_cards.py:98-102 | the available lines are printed in text order, and their total is the sum of the quantities they read back as |
| CheckMissingCards.MissingReport | mtg_utils/commands/check_missing_cards.py:105-109 | the still-missing rows are printed by card name, a permutation of the recorded ones, and the total is their sum |
| CheckMissingCards.BorrowingReport | mtg_utils/commands/check_missing_cards.py:114-122 | the loan part is printed iff some card can be borrowed; loans by name, the total their sum, and the per-deck blocks from the sorted dict |
| CheckMissingCards.RollupOrder | mtg_utils/commands/check_missing_cards.py:122 | the deck blocks come in ascending deck-name order, each deck once |
| CheckMissingCards.RollupDecks | mtg_utils/commands/check_missing_cards.py:122 | there is a block for exactly the decks recorded |
| CheckMissingCards.RollupBlock | mtg_utils/commands/check_missing_cards.py:122-129 | each block lists its deck's recorded cards ordered by name, and its total is the sum of `min(qty_in_deck, missing)` over them |
| CheckMissingCards.RollupTotal | mtg_utils/commands/check_missing_cards.py:122-124 | the blocks' totals add up to everything recorded |
| CheckMissingCards.MissingCardsAccounting | mtg_utils/commands/check_missing_cards.py:95-118 | when every target line splits exactly, the printed available, missing and borrowable totals add up to the printed number of cards |
| CheckMissingCards.MissingCardsCovers | mtg_utils/commands/check_missing_cards.py:95-118 | for every input that parses, the printed available, missing and borrowable totals add up to at least the printed number of cards |
| CheckMissingCards.MissingCardsLoans | mtg_utils/commands/check_missing_cards.py:114-125 | with positive configured quantities, the per-deck block totals add up to the printed borrowable total |
| CheckMissingCards.ForestExample | mtg_utils/commands/check_missing_cards.py:31-129 | three Forests needed, one available, four in another deck: one available, none missing, two borrowable from that deck |
| CheckMissingCards.OverCountExample | mtg_utils/commands/check_missing_cards.py:66-85 | two decks holding two each of a card needed twice: the loan is four, more than the two missing, and nothing is reported missing |
| CheckMissingCards.RecordDeck | mtg_utils/commands/check_missing_cards.py:34-39 | the inner loop over one deck's lines appends its pairs to the index, or stops at the first bad line |
| CheckMissingCards.IndexConfigDecks | mtg_utils/commands/check_missing_cards.py:32-39 | the loop over the configured decks builds the index, or stops at the first bad line |
| CheckMissingCards.ReadPool | mtg_utils/commands/check_missing_cards.py:42-47 | the pool loop assigns each line's quantity to its name, the last line winning, or stops at the first bad line |
| CheckMissingCards.AppendNeeds | mtg_utils/commands/check_missing_cards.py:75-76 | the loop records `(card, qty, missing)` under every holding deck, in holding order |
| CheckMissingCards.ResolveCard | mtg_utils/commands/check_missing_cards.py:56-92 | the loop body, for one parsed line, is one resolution step |
| CheckMissingCards.ResolveDeck | mtg_utils/commands/check_missing_cards.py:55-92 | the loop over the target deck resolves every line in order, or stops at the first bad line |
| CheckMissingCards.CheckDeck | mtg_utils/commands/check_missing_cards.py:31-129 | the command: configured decks, then pool, then target deck parsed, the first bad line stopping it; otherwise the report |
| CompareDecks.ReadDeckSpaced | mtg_utils/commands/compare_decks.py:15-27 | reading a deck file skips lines without a space, parses the rest as every other command does, and assigns quantities, the last line winning |
| CompareDecks.ReadDeckMalformedPrefix | mtg_utils/commands/compare_decks.py:16-20 | once a prefix stops the reading on a bad quantity, the whole file stops on that line |
| CompareDecks.ReadDeckUnique | mtg_utils/commands/compare_decks.py:15-20 | a deck read without error has one item per card name |
| CompareDecks.ReadDeckFile | mtg_utils/commands/compare_decks.py:15-20 | the reading loop computes the deck's dict or the first bad line |
| CompareDecks.ClassifySpec | mtg_utils/commands/compare_decks.py:41-54 | a card is common iff both decks hold it, at the smaller quantity; only the deck holding more gets the excess; a card deck 2 lacks goes to deck 1 in full; any other card goes to deck 2 at deck 2's quantity (even 0 or negative); with non-negative quantities each deck's rows add up to its quantity |
| CompareDecks.PlaceCard | mtg_utils/commands/compare_decks.py:41-54 | the if-chain for one card appends exactly the rows of its classification |
| CompareDecks.CategorizeLookup | mtg_utils/commands/compare_decks.py:37-54 | whatever order the cards are visited in, a list has a row for a card iff its classification gives it one on that side, at that quantity |
| CompareDecks.CategorizeNames | mtg_utils/commands/compare_decks.py:37-54 | each list names each visited card at most once and no other card |
| CompareDecks.CategorizeSums | mtg_utils/commands/compare_decks.py:37-59 | with non-negative quantities, common plus deck 1's rows sum to deck 1's quantities of the visited cards, and likewise for deck 2 |
| CompareDecks.CategorizeCards | mtg_utils/commands/compare_decks.py:30-54 | the loop visits every name of either deck exactly once, in some order, and fills the lists as that order dictates |
| CompareDecks.ListedSorted | mtg_utils/commands/compare_decks.py:63-72 | each list, sorted by name, has one row per name, holding the card's classification on that side, and nothing else |
| CompareDecks.CategorizeTotals | mtg_utils/commands/compare_decks.py:57-59 | with non-negative quantities, the common total plus a deck's own total equals that deck's total |
| CompareDecks.CategorizeCompared | mtg_utils/commands/compare_decks.py:30-72 | the filled lists, totalled and sorted, are the comparison of the two decks, for any visiting order |
| CompareDecks.SortedUnique | mtg_utils/commands/compare_decks.py:63-72 | two name-sorted lists with one row per name holding the same rows are equal |
| CompareDecks.ListedUnique | mtg_utils/commands/compare_decks.py:63-72 | a printed list is determined by the two decks alone |
| CompareDecks.ComparedUnique | mtg_utils/commands/compare_decks.py:30-72 | the printed comparison does not depend on the set's iteration order |
| CompareDecks.CompareDeckFiles | mtg_utils/commands/compare_decks.py:15-72 | the command: deck 1 then deck 2 read, a bad quantity stopping it; otherwise the three sorted lists with their totals |
| CompareDecks.IslandExample | mtg_utils/commands/compare_decks.py:15-72 | 2 Islands against 5 Islands and a Plains: 2 Islands in common, nothing only in deck 1, and 3 Islands and 1 Plains only in deck 2 |

## Left out

- The HTTP requests, the pagination of the binder search, `raise_for_status` and JSON decoding in `moxfield_api.py`. The methods take the fetched (quantity, name) pairs and commander names.
- File reads and writes, `os.makedirs`, `print`, and the `click` command wiring. Lists arrive as parameters, and what is written or printed is returned as a value.
- `_update_built_decks` and `_update_owned_cards` are not part of this model. They download decks and the library and write them to files.
- The argument handling and deck download at the top of `check_missing_cards.py` are not part of this model.
- `config.py` and `main.py` are not part of this model. Configured decks arrive as a list of (name, lines).
- Cards.ParseInt: accepts an optional sign followed by ASCII digits only. Python's `int()` also accepts surrounding whitespace, `_` separators and non-ASCII digits, so such lines are reported malformed here where Python would read them.
- Errors other than a line that does not split or whose quantity is not an integer are left out: a missing config key, a missing file, a failed request.
- `list.sort`/`sorted` are modelled as the stable sort function `SortBy`, proved to be an ordered permutation. Stability is not stated as a property.
- The deck list's in-place sort and inserts are modelled on sequences, not on a mutable list object.
- The order in which Python iterates a `set` is left open. `CategorizeCards` picks each element with `:|`, a ghost `visited` records the order, and `ComparedUnique` shows the printed result does not depend on it.
- The counts of unique cards printed beside each total are the lengths of the returned lists and are not modelled separately.
- MoxfieldApi.LibrarySortKey: a line without a space makes Python's key function raise. The model gives it no key and lets it compare as less-or-equal to anything. Only formatted lines, which always have a space, are sorted.
- CheckMissingCards.MissingCardsAccounting: the equality is proved only when every line splits exactly (`SplitsExactly`). The source's borrowable sum can exceed what is missing (`OverCountExample`), and then the totals exceed the card count. The bound "at least the card count" holds for every input and is proved without that condition (`MissingCardsCovers`).
- CheckMissingCards.ResolveLoans, CheckMissingCards.ResolveAllLoans and CheckMissingCards.MissingCardsLoans: proved for positive configured quantities. A negative quantity can give a deck block a non-zero `min(qty, missing)` sum for a card that gets no loan row.
