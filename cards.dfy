// Card-list lines of the form "<quantity> <name>": the split on the first
// space, the integer parse of the quantity, the formatting of a quantity and a
// name back into a line, and sums of quantities.

module Cards {
  import opened Lists

  datatype Option<T> = None | Some(value: T)

  /** A computation that either succeeds or stops at the first line it could
      not parse (Python's IndexError or ValueError on that line). */
  datatype Result<T> = Ok(value: T) | Malformed(line: string)

  /** One parsed card-list line: a quantity and a card name. */
  datatype Entry = Entry(qty: int, name: string)

  predicate IsDigit(c: char) {
    '0' <= c <= '9'
  }

  predicate AllDigits(s: string) {
    forall i :: 0 <= i < |s| ==> IsDigit(s[i])
  }

  function DigitValue(c: char): nat
    requires IsDigit(c)
  {
    (c as int) - ('0' as int)
  }

  function DigitChar(d: nat): (c: char)
    requires d < 10
    ensures IsDigit(c) && DigitValue(c) == d
  {
    (('0' as int) + d) as char
  }

  /** The value of a string of decimal digits, most significant first. */
  function DecimalValue(s: string): nat
    requires AllDigits(s)
  {
    if s == [] then 0 else 10 * DecimalValue(s[..|s| - 1]) + DigitValue(s[|s| - 1])
  }

  /** Python's str() of a natural number: its shortest decimal spelling,
      which reads back as the same number. */
  function NatToDecimal(n: nat): (s: string)
    ensures s != [] && AllDigits(s)
    ensures DecimalValue(s) == n
    ensures |s| == 1 || s[0] != '0'
  {
    if n < 10 then [DigitChar(n)]
    else
      var high := NatToDecimal(n / 10);
      var s := high + [DigitChar(n % 10)];
      assert s[..|s| - 1] == high;
      assert s[0] != '0' by {
        if |high| == 1 { assert DecimalValue(high) == DigitValue(high[0]); }
      }
      s
  }

  /** Python's int() on the text before the first space, over the grammar
      an optional sign followed by one or more ASCII digits. */
  function ParseInt(t: string): Option<int> {
    if t != [] && (t[0] == '-' || t[0] == '+') then
      var digits := t[1..];
      if digits != [] && AllDigits(digits) then
        Some(if t[0] == '-' then 0 - DecimalValue(digits) else DecimalValue(digits))
      else None
    else if t != [] && AllDigits(t) then Some(DecimalValue(t))
    else None
  }

  /** Python's str() of an integer; it has no space and parses back. */
  function IntToDecimal(i: int): (s: string)
    ensures ' ' !in s
    ensures ParseInt(s) == Some(i)
    ensures s != [] && s[0] != '+' && (s[0] == '-' <==> i < 0)
    ensures var digits := if i < 0 then s[1..] else s;
            digits != [] && AllDigits(digits) && (|digits| == 1 || digits[0] != '0')
  {
    if i < 0 then
      var s := "-" + NatToDecimal(-i);
      assert s[1..] == NatToDecimal(-i);
      s
    else
      var s := NatToDecimal(i);
      assert s[0] != '-' && s[0] != '+' by { assert IsDigit(s[0]); }
      s
  }

  /** Python's s.split(' ', 1) when it yields two parts; None when s has no
      space, where indexing the second part raises IndexError. */
  function SplitFirstSpace(s: string): (r: Option<(string, string)>)
    ensures r.None? <==> ' ' !in s
    ensures r.Some? ==> ' ' !in r.value.0 && s == r.value.0 + " " + r.value.1
  {
    if s == [] then None
    else if s[0] == ' ' then Some(([], s[1..]))
    else
      match SplitFirstSpace(s[1..])
      case None => None
      case Some((head, tail)) => Some(([s[0]] + head, tail))
  }

  /** Splitting a joined line gives back its two parts whenever the first
      part has no space (the name itself may hold spaces). */
  lemma {:induction false} SplitJoin(head: string, tail: string)
    requires ' ' !in head
    ensures SplitFirstSpace(head + " " + tail) == Some((head, tail))
  {
    var s := head + " " + tail;
    if head == [] {
      assert s[0] == ' ' && s[1..] == tail;
    } else {
      assert s[0] == head[0] && s[1..] == head[1..] + " " + tail;
      SplitJoin(head[1..], tail);
      assert [head[0]] + head[1..] == head;
    }
  }

  /** `parts = line.split(' ', 1); int(parts[0]), parts[1]`. */
  function ParseEntry(line: string): Option<Entry> {
    match SplitFirstSpace(line)
    case None => None
    case Some((head, tail)) =>
      match ParseInt(head)
      case None => None
      case Some(q) => Some(Entry(q, tail))
  }

  /** `f"{quantity} {name}"`. */
  function FormatEntry(e: Entry): string {
    IntToDecimal(e.qty) + " " + e.name
  }

  /** A formatted line parses back to the entry it was made from. */
  lemma ParseFormatEntry(e: Entry)
    ensures ParseEntry(FormatEntry(e)) == Some(e)
  {
    SplitJoin(IntToDecimal(e.qty), e.name);
  }

  /** Each entry formatted, in order. */
  function FormatAll(es: seq<Entry>): (lines: seq<string>)
    ensures |lines| == |es|
    ensures forall i :: 0 <= i < |es| ==> lines[i] == FormatEntry(es[i])
  {
    seq(|es|, i requires 0 <= i < |es| => FormatEntry(es[i]))
  }

  lemma FormatAllSnoc(es: seq<Entry>, e: Entry)
    ensures FormatAll(es + [e]) == FormatAll(es) + [FormatEntry(e)]
  {
  }

  /** Parses every line in order and stops at the first one that fails. */
  function ParseAll(lines: seq<string>): Result<seq<Entry>> {
    if lines == [] then Ok([])
    else
      var last := lines[|lines| - 1];
      match ParseAll(lines[..|lines| - 1])
      case Malformed(l) => Malformed(l)
      case Ok(es) =>
        match ParseEntry(last)
        case None => Malformed(last)
        case Some(e) => Ok(es + [e])
  }

  lemma ParseAllSnoc(lines: seq<string>, i: int)
    requires 0 <= i < |lines|
    ensures ParseAll(lines[..i + 1]) == match ParseAll(lines[..i])
                                        case Malformed(l) => Malformed(l)
                                        case Ok(es) =>
                                          match ParseEntry(lines[i])
                                          case None => Malformed(lines[i])
                                          case Some(e) => Ok(es + [e])
  {
    assert lines[..i + 1][..i] == lines[..i];
  }

  /** Parsing succeeds iff every line parses, and then yields one entry per
      line, in order. */
  lemma {:induction false} ParseAllSpec(lines: seq<string>)
    ensures ParseAll(lines).Ok? ==> |ParseAll(lines).value| == |lines|
    ensures ParseAll(lines).Ok? ==> forall i :: 0 <= i < |lines| ==> ParseEntry(lines[i]) == Some(ParseAll(lines).value[i])
    ensures ParseAll(lines).Ok? <==> forall i :: 0 <= i < |lines| ==> ParseEntry(lines[i]).Some?
  {
    ParseAllOk(lines);
    ParseAllValues(lines);
  }

  lemma {:induction false} ParseAllOk(lines: seq<string>)
    ensures ParseAll(lines).Ok? <==> forall i :: 0 <= i < |lines| ==> ParseEntry(lines[i]).Some?
  {
    if lines != [] {
      var init := lines[..|lines| - 1];
      ParseAllOk(init);
      assert forall i :: 0 <= i < |init| ==> init[i] == lines[i];
    }
  }

  lemma {:induction false} ParseAllValues(lines: seq<string>)
    ensures ParseAll(lines).Ok? ==> |ParseAll(lines).value| == |lines|
    ensures ParseAll(lines).Ok? ==> forall i :: 0 <= i < |lines| ==> ParseEntry(lines[i]) == Some(ParseAll(lines).value[i])
  {
    if lines != [] && ParseAll(lines).Ok? {
      var init := lines[..|lines| - 1];
      var last := lines[|lines| - 1];
      ParseAllValues(init);
      var es := ParseAll(init).value;
      var r := ParseAll(lines).value;
      assert r == es + [ParseEntry(last).value];
      assert forall i :: 0 <= i < |init| ==> init[i] == lines[i] && r[i] == es[i];
    }
  }

  /** A failure reports the first line that does not parse. */
  lemma {:induction false} ParseAllFailure(lines: seq<string>)
    ensures ParseAll(lines).Malformed? ==>
              exists i :: 0 <= i < |lines| && lines[i] == ParseAll(lines).line && ParseEntry(lines[i]).None?
                          && forall j :: 0 <= j < i ==> ParseEntry(lines[j]).Some?
  {
    if lines != [] {
      var init := lines[..|lines| - 1];
      var last := lines[|lines| - 1];
      ParseAllFailure(init);
      ParseAllOk(init);
      assert forall i :: 0 <= i < |init| ==> init[i] == lines[i];
      match ParseAll(init)
      case Malformed(l) =>
        assert ParseAll(lines) == Malformed(l);
      case Ok(es) =>
        if ParseEntry(last).None? {
          assert ParseAll(lines) == Malformed(last);
          assert lines[|init|] == last;
        }
    }
  }

  /** Once a prefix of the lines fails to parse, the whole list fails on
      the same line. */
  lemma {:induction false} ParseAllMalformedPrefix(lines: seq<string>, j: int)
    requires 0 <= j <= |lines| && ParseAll(lines[..j]).Malformed?
    ensures ParseAll(lines) == ParseAll(lines[..j])
    decreases |lines|
  {
    if j < |lines| {
      var init := lines[..|lines| - 1];
      assert init[..j] == lines[..j];
      ParseAllMalformedPrefix(init, j);
    } else {
      assert lines[..j] == lines;
    }
  }

  /** Formatting then parsing a list of entries gives it back unchanged. */
  lemma {:induction false} ParseFormatAll(es: seq<Entry>)
    ensures ParseAll(FormatAll(es)) == Ok(es)
  {
    var lines := FormatAll(es);
    forall i | 0 <= i < |lines| ensures ParseEntry(lines[i]) == Some(es[i]) {
      ParseFormatEntry(es[i]);
    }
    ParseAllSpec(lines);
    var r := ParseAll(lines);
    assert r.Ok?;
    assert r.value == es;
  }

  /** The total quantity of a list of entries. */
  function SumQty(es: seq<Entry>): int {
    if es == [] then 0 else SumQty(es[..|es| - 1]) + es[|es| - 1].qty
  }

  /** The summed quantity of the entries named `name`. */
  function QtyOf(es: seq<Entry>, name: string): int {
    if es == [] then 0
    else QtyOf(es[..|es| - 1], name) + (if es[|es| - 1].name == name then es[|es| - 1].qty else 0)
  }

  /** The quantity of the last entry named `name`, if any. */
  function LastQty(es: seq<Entry>, name: string): (r: Option<int>)
    ensures r.None? <==> forall i :: 0 <= i < |es| ==> es[i].name != name
    ensures r.Some? ==> exists i :: 0 <= i < |es| && es[i].name == name && es[i].qty == r.value
                                    && forall j :: i < j < |es| ==> es[j].name != name
  {
    if es == [] then None
    else if es[|es| - 1].name == name then Some(es[|es| - 1].qty)
    else LastQty(es[..|es| - 1], name)
  }

  /** Reordering a list whose names are distinct keeps each name's
      quantity. */
  lemma LastQtyPermutation(a: seq<Entry>, b: seq<Entry>, name: string)
    requires multiset(a) == multiset(b)
    requires forall i, j :: 0 <= i < j < |a| ==> a[i].name != a[j].name
    ensures LastQty(a, name) == LastQty(b, name)
  {
    if LastQty(b, name).Some? {
      var k :| 0 <= k < |b| && b[k].name == name && b[k].qty == LastQty(b, name).value;
      assert b[k] in multiset(a);
    }
    if LastQty(a, name).Some? {
      var i :| 0 <= i < |a| && a[i].name == name && a[i].qty == LastQty(a, name).value;
      assert a[i] in multiset(b);
      var k :| 0 <= k < |b| && b[k].name == name && b[k].qty == LastQty(b, name).value;
      assert b[k] in multiset(a);
      var m :| 0 <= m < |a| && a[m] == b[k];
      assert m == i;
    }
  }

  lemma {:induction false} SumQtyAppend(a: seq<Entry>, b: seq<Entry>)
    ensures SumQty(a + b) == SumQty(a) + SumQty(b)
  {
    if b != [] {
      assert (a + b)[..|a + b| - 1] == a + b[..|b| - 1];
      SumQtyAppend(a, b[..|b| - 1]);
    } else {
      assert a + b == a;
    }
  }

  function EntryQty(e: Entry): int { e.qty }

  lemma {:induction false} SumQtyIsSumOf(es: seq<Entry>)
    ensures SumQty(es) == SumOf(es, EntryQty)
  {
    if es != [] {
      SumQtyIsSumOf(es[..|es| - 1]);
    }
  }

  /** The total quantity does not depend on the order of the entries. */
  lemma SumQtyPermutation(a: seq<Entry>, b: seq<Entry>)
    requires multiset(a) == multiset(b)
    ensures SumQty(a) == SumQty(b)
  {
    SumQtyIsSumOf(a);
    SumQtyIsSumOf(b);
    SumOfPermutation(a, b, EntryQty);
  }

  /** The quantity a line reads as, 0 for a line that does not parse. */
  function LineQty(line: string): int {
    match ParseEntry(line)
    case Some(e) => e.qty
    case None => 0
  }

  /** The total of a list of lines that parses is the sum of the quantities
      the lines read as, one by one. */
  lemma ParsedTotal(lines: seq<string>)
    requires ParseAll(lines).Ok?
    ensures SumQty(ParseAll(lines).value) == SumOf(lines, LineQty)
  {
    ParseAllSpec(lines);
    SumQtyIsSumOf(ParseAll(lines).value);
    SumOfPointwise(ParseAll(lines).value, EntryQty, lines, LineQty);
  }

  /** No two entries share a name. */
  predicate DistinctNames(es: seq<Entry>) {
    forall i, j :: 0 <= i < j < |es| ==> es[i].name != es[j].name
  }
  function EntryName(e: Entry): string { e.name }

  /** Reordering a list whose names are distinct keeps them distinct. */
  lemma DistinctNamesPermutation(a: seq<Entry>, b: seq<Entry>)
    requires multiset(a) == multiset(b) && DistinctNames(a)
    ensures DistinctNames(b)
  {
    DistinctPermutation(a, b, EntryName);
  }

  // ---------------------------------------------------------------------
  // Decks
  // ---------------------------------------------------------------------

  /** A deck of the configuration: its name and its lines, or the entries
      parsed from them. */
  datatype Deck<T> = Deck(name: string, cards: seq<T>)

  /** Parses every deck in order and stops at the first line that fails. */
  function ParseDecks(decks: seq<Deck<string>>): Result<seq<Deck<Entry>>> {
    if decks == [] then Ok([])
    else
      var last := decks[|decks| - 1];
      match ParseDecks(decks[..|decks| - 1])
      case Malformed(l) => Malformed(l)
      case Ok(ds) =>
        match ParseAll(last.cards)
        case Malformed(l) => Malformed(l)
        case Ok(es) => Ok(ds + [Deck(last.name, es)])
  }

  lemma ParseDecksSnoc(decks: seq<Deck<string>>, k: int)
    requires 0 <= k < |decks|
    ensures ParseDecks(decks[..k + 1]) == match ParseDecks(decks[..k])
                                         case Malformed(l) => Malformed(l)
                                         case Ok(ds) =>
                                           match ParseAll(decks[k].cards)
                                           case Malformed(l) => Malformed(l)
                                           case Ok(es) => Ok(ds + [Deck(decks[k].name, es)])
  {
    assert decks[..k + 1][..k] == decks[..k];
  }

  /** Parsed decks keep their names and order, each deck's lines parsed in
      full. */
  lemma {:induction false} ParseDecksSpec(decks: seq<Deck<string>>)
    ensures ParseDecks(decks).Ok? <==> forall k :: 0 <= k < |decks| ==> ParseAll(decks[k].cards).Ok?
    ensures ParseDecks(decks).Ok? ==> |ParseDecks(decks).value| == |decks|
    ensures ParseDecks(decks).Ok? ==> forall k :: 0 <= k < |decks| ==>
              ParseDecks(decks).value[k] == Deck(decks[k].name, ParseAll(decks[k].cards).value)
  {
    ParseDecksOk(decks);
    ParseDecksValues(decks);
  }

  lemma {:induction false} ParseDecksOk(decks: seq<Deck<string>>)
    ensures ParseDecks(decks).Ok? <==> forall k :: 0 <= k < |decks| ==> ParseAll(decks[k].cards).Ok?
  {
    if decks != [] {
      var init := decks[..|decks| - 1];
      ParseDecksOk(init);
      assert forall k :: 0 <= k < |init| ==> init[k] == decks[k];
    }
  }

  lemma {:induction false} ParseDecksValues(decks: seq<Deck<string>>)
    ensures ParseDecks(decks).Ok? ==> |ParseDecks(decks).value| == |decks|
    ensures ParseDecks(decks).Ok? ==> forall k :: 0 <= k < |decks| ==>
              ParseDecks(decks).value[k].name == decks[k].name
              && ParseAll(decks[k].cards) == Ok(ParseDecks(decks).value[k].cards)
  {
    if decks != [] && ParseDecks(decks).Ok? {
      var init := decks[..|decks| - 1];
      var last := decks[|decks| - 1];
      ParseDecksValues(init);
      var ds := ParseDecks(init).value;
      var r := ParseDecks(decks).value;
      assert r == ds + [Deck(last.name, ParseAll(last.cards).value)];
      assert forall k :: 0 <= k < |init| ==> init[k] == decks[k] && r[k] == ds[k];
    }
  }

  /** A failure reports a line that fails in the first deck that fails. */
  lemma {:induction false} ParseDecksFailure(decks: seq<Deck<string>>)
    ensures ParseDecks(decks).Malformed? ==>
              exists k :: 0 <= k < |decks| && ParseAll(decks[k].cards) == Malformed(ParseDecks(decks).line)
                          && forall m :: 0 <= m < k ==> ParseAll(decks[m].cards).Ok?
  {
    if decks != [] {
      var init := decks[..|decks| - 1];
      var last := decks[|decks| - 1];
      ParseDecksFailure(init);
      ParseDecksOk(init);
      assert forall k :: 0 <= k < |init| ==> init[k] == decks[k];
      match ParseDecks(init)
      case Malformed(l) =>
        assert ParseDecks(decks) == Malformed(l);
      case Ok(ds) =>
        match ParseAll(last.cards)
        case Malformed(l) =>
          assert ParseDecks(decks) == Malformed(l);
          assert ParseAll(decks[|init|].cards) == Malformed(l);
        case Ok(es) =>
    }
  }

  /** A single line holding a formatted entry parses back to that entry. */
  lemma ParseSingle(e: Entry, line: string)
    requires FormatEntry(e) == line
    ensures ParseAll([line]) == Ok([e])
  {
    ParseFormatAll([e]);
    assert FormatAll([e]) == [line];
  }

  lemma {:induction false} ParseDecksMalformedPrefix(decks: seq<Deck<string>>, j: int)
    requires 0 <= j <= |decks| && ParseDecks(decks[..j]).Malformed?
    ensures ParseDecks(decks) == ParseDecks(decks[..j])
    decreases |decks|
  {
    if j < |decks| {
      var init := decks[..|decks| - 1];
      assert init[..j] == decks[..j];
      ParseDecksMalformedPrefix(init, j);
    } else {
      assert decks[..j] == decks;
    }
  }
}
