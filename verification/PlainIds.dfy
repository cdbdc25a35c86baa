/** Giving a unit page's own headings their plain ids, tools/mkdocs_showcase.py.

    The page is its ids and links with the rest in between; a contents item carries
    the place of its own heading's id, which the code leaves implicit. */
module PlainIds {
  import opened Text

  datatype Token = Id(name: string) | Link(name: string) | Other(text: string)

  type Page = seq<Token>

  /** A table of contents item; `at` is where its heading's id stands on the page. */
  datatype Item = Item(id: string, at: nat, children: seq<Item>)

  predicate IsDigit(c: char) {
    '0' <= c <= '9'
  }

  function TrailingDigits(s: string): (n: nat)
    ensures n <= |s|
  {
    if s != [] && IsDigit(s[|s| - 1]) then 1 + TrailingDigits(s[..|s| - 1]) else 0
  }

  /** An id without the counter that made it unique: tage for tage_1. */
  function Plain(id: string): (p: string)
    ensures p == id || |p| < |id|
  {
    var n := TrailingDigits(id);
    if n > 0 && n < |id| && id[|id| - n - 1] == '_' then id[..|id| - n - 1] else id
  }

  /** What the table of contents adds to make an id unique: decimal digits, by code. */
  predicate IsCounter(s: string) {
    s != "" && forall k :: 0 <= k < |s| ==> 48 <= s[k] as int <= 57
  }

  /** A counter is dropped, whatever it was added to. */
  lemma CounterDropped(base: string, counter: string)
    requires IsCounter(counter)
    ensures Plain(base + ['_'] + counter) == base
  {
    var id := base + ['_'] + counter;
    CounterCounted(base + ['_'], counter);
    assert id[..|base|] == base;
  }

  lemma {:induction false} CounterCounted(front: string, counter: string)
    requires front != [] && !IsDigit(front[|front| - 1])
    requires forall k :: 0 <= k < |counter| ==> IsDigit(counter[k])
    ensures TrailingDigits(front + counter) == |counter|
    decreases |counter|
  {
    if counter == [] {
      assert front + counter == front;
    } else {
      var rest := counter[..|counter| - 1];
      assert (front + counter)[..|front + counter| - 1] == front + rest;
      CounterCounted(front, rest);
    }
  }

  /** And nothing else is. */
  lemma OnlyCounterDropped(id: string)
    ensures Plain(id) != id ==> exists counter: string ::
      IsCounter(counter) && id == Plain(id) + ['_'] + counter
  {
    if Plain(id) != id {
      var counter := id[|id| - TrailingDigits(id)..];
      DigitsTrail(id);
      assert IsCounter(counter);
      assert id == Plain(id) + ['_'] + counter;
    }
  }

  lemma {:induction false} DigitsTrail(id: string)
    ensures forall k :: |id| - TrailingDigits(id) <= k < |id| ==> IsDigit(id[k])
    decreases |id|
  {
    if id != [] && IsDigit(id[|id| - 1]) {
      var front := id[..|id| - 1];
      DigitsTrail(front);
      assert forall k :: 0 <= k < |front| ==> front[k] == id[k];
    }
  }

  function Swapped(name: string, a: string, b: string): string {
    if name == a then b else if name == b then a else name
  }

  function SwapToken(t: Token, a: string, b: string): Token {
    match t
    case Id(name) => Id(Swapped(name, a, b))
    case Link(name) => Link(Swapped(name, a, b))
    case Other(_) => t
  }

  /** Exchanges two names in every id and every link. */
  function Swap(page: Page, a: string, b: string): (r: Page)
    ensures |r| == |page|
    ensures forall k :: 0 <= k < |page| ==> r[k] == SwapToken(page[k], a, b)
  {
    seq(|page|, k requires 0 <= k < |page| => SwapToken(page[k], a, b))
  }

  /** Whether an item's heading can take its plain id: it has another, and some
      heading holds the plain one. */
  predicate Takes(page: Page, id: string) {
    Plain(id) != id && Id(Plain(id)) in page
  }

  function PlainPage(page: Page, id: string): Page {
    if Takes(page, id) then Swap(page, Plain(id), id) else page
  }

  function PlainId(page: Page, id: string): string {
    if Takes(page, id) then Plain(id) else id
  }

  /** plain_ids: the page and the items after every item, children first. */
  function PlainAll(page: Page, items: seq<Item>): (Page, seq<Item>)
    decreases items
  {
    if items == [] then (page, [])
    else
      var (below, children) := PlainAll(page, items[0].children);
      var id := items[0].id;
      var (rest, others) := PlainAll(PlainPage(below, id), items[1..]);
      (rest, [Item(PlainId(below, id), items[0].at, children)] + others)
  }

  method GivePlainIds(page: Page, items: seq<Item>) returns (page': Page, items': seq<Item>)
    ensures (page', items') == PlainAll(page, items)
    decreases items
  {
    page', items' := page, [];
    var i := 0;
    assert items[0..] == items;
    assert [] + PlainAll(page, items).1 == PlainAll(page, items).1;
    while i < |items|
      invariant 0 <= i <= |items|
      invariant After(items', PlainAll(page', items[i..])) == PlainAll(page, items)
    {
      AfterOne(items', page', items[i..]);
      var item := items[i];
      assert items[i..][0] == item && items[i..][1..] == items[i + 1..];
      var children;
      page', children := GivePlainIds(page', item.children);
      var id := item.id;
      var plain := Plain(id);
      ghost var below := page';
      if plain != id && Id(plain) in page' {
        page' := Swap(page', plain, id);
        id := plain;
      }
      items' := items' + [Item(id, item.at, children)];
      i := i + 1;
    }
    assert items' + [] == items';
  }

  /** Items already done, before the rest. */
  function After(done: seq<Item>, rest: (Page, seq<Item>)): (Page, seq<Item>) {
    (rest.0, done + rest.1)
  }

  lemma AfterOne(done: seq<Item>, page: Page, items: seq<Item>)
    requires items != []
    ensures var (below, children) := PlainAll(page, items[0].children);
      var id := items[0].id;
      After(done, PlainAll(page, items)) ==
      After(done + [Item(PlainId(below, id), items[0].at, children)], PlainAll(PlainPage(below, id), items[1..]))
  {
    var (below, children) := PlainAll(page, items[0].children);
    var one := Item(PlainId(below, items[0].id), items[0].at, children);
    var others := PlainAll(PlainPage(below, items[0].id), items[1..]).1;
    assert done + ([one] + others) == done + [one] + others;
  }

  // ---------------------------------------------------------------------
  // Links open what they opened
  // ---------------------------------------------------------------------

  predicate Named(t: Token) {
    t.Id? || t.Link?
  }

  function NameOf(t: Token): string
    requires Named(t)
  {
    match t
    case Id(name) => name
    case Link(name) => name
  }

  /** Two pages with the same text, ids and links in the same places, and the same
      places naming the same thing. */
  ghost predicate SameLinks(page: Page, other: Page) {
    && |page| == |other|
    && (forall k :: 0 <= k < |page| ==>
          && page[k].Id? == other[k].Id? && page[k].Link? == other[k].Link?
          && (!Named(page[k]) ==> page[k] == other[k]))
    && forall a, b :: 0 <= a < |page| && 0 <= b < |page| && Named(page[a]) && Named(page[b]) ==>
         (NameOf(page[a]) == NameOf(page[b]) <==> NameOf(other[a]) == NameOf(other[b]))
  }

  lemma SwapSameLinks(page: Page, a: string, b: string)
    ensures SameLinks(page, Swap(page, a, b))
  {
  }

  lemma SameLinksTransitive(x: Page, y: Page, z: Page)
    requires SameLinks(x, y) && SameLinks(y, z)
    ensures SameLinks(x, z)
  {
  }

  /** Main result: whatever the contents, after all the exchanges a link and an id
      match exactly when they matched before, and nothing else has changed. */
  lemma {:induction false} LinksPreserved(page: Page, items: seq<Item>)
    ensures SameLinks(page, PlainAll(page, items).0)
    decreases items
  {
    if items != [] {
      LinksPreserved(page, items[0].children);
      var below := PlainAll(page, items[0].children).0;
      var next := PlainPage(below, items[0].id);
      if Takes(below, items[0].id) {
        SwapSameLinks(below, Plain(items[0].id), items[0].id);
      }
      LinksPreserved(next, items[1..]);
      SameLinksTransitive(page, below, next);
      SameLinksTransitive(page, next, PlainAll(page, items).0);
    }
  }

  // ---------------------------------------------------------------------
  // Items in the order they are processed
  // ---------------------------------------------------------------------

  /** An item by itself: its id and the place of its heading's id. */
  datatype Entry = Entry(id: string, at: nat)

  function Flat(items: seq<Item>): seq<Entry> {
    if items == [] then []
    else Flat(items[0].children) + ([Entry(items[0].id, items[0].at)] + Flat(items[1..]))
  }

  function PlainList(page: Page, list: seq<Entry>): (Page, seq<Entry>)
    decreases |list|
  {
    if list == [] then (page, [])
    else
      var (rest, others) := PlainList(PlainPage(page, list[0].id), list[1..]);
      (rest, [list[0].(id := PlainId(page, list[0].id))] + others)
  }

  lemma {:induction false} PlainListConcat(page: Page, a: seq<Entry>, b: seq<Entry>)
    ensures var (p, a') := PlainList(page, a);
      var (q, b') := PlainList(p, b);
      PlainList(page, a + b) == (q, a' + b')
    decreases |a|
  {
    if a == [] {
      assert a + b == b;
      assert [] + PlainList(page, b).1 == PlainList(page, b).1;
    } else {
      PlainListConcat(PlainPage(page, a[0].id), a[1..], b);
      ConcatCons(page, a[0], a[1..], b);
      assert a == [a[0]] + a[1..];
    }
  }

  lemma ConcatCons(page: Page, e: Entry, a: seq<Entry>, b: seq<Entry>)
    requires var (p, a') := PlainList(PlainPage(page, e.id), a);
      var (q, b') := PlainList(p, b);
      PlainList(PlainPage(page, e.id), a + b) == (q, a' + b')
    ensures var (p, a') := PlainList(page, [e] + a);
      var (q, b') := PlainList(p, b);
      PlainList(page, [e] + a + b) == (q, a' + b')
  {
    var (p, a') := PlainList(PlainPage(page, e.id), a);
    var one := [e.(id := PlainId(page, e.id))];
    PlainListCons(page, e, a);
    PlainListCons(page, e, a + b);
    Assoc([e], a, b);
    Assoc(one, a', PlainList(p, b).1);
  }

  lemma PlainListCons(page: Page, e: Entry, list: seq<Entry>)
    ensures var (p, list') := PlainList(PlainPage(page, e.id), list);
      PlainList(page, [e] + list) == (p, [e.(id := PlainId(page, e.id))] + list')
  {
    assert ([e] + list)[1..] == list;
  }

  /** The recursion visits the items in that order. */
  lemma {:induction false} PlainIsFlat(page: Page, items: seq<Item>)
    ensures var (p, items') := PlainAll(page, items);
      PlainList(page, Flat(items)) == (p, Flat(items'))
    decreases items
  {
    if items != [] {
      var item, rest := items[0], items[1..];
      var (below, children) := PlainAll(page, item.children);
      PlainIsFlat(page, item.children);
      var next := PlainPage(below, item.id);
      PlainIsFlat(next, rest);
      var one := Entry(item.id, item.at);
      var one' := one.(id := PlainId(below, item.id));
      PlainListConcat(page, Flat(item.children), [one] + Flat(rest));
      assert ([one] + Flat(rest))[1..] == Flat(rest);
      var (last, others) := PlainAll(next, rest);
      var item' := Item(one'.id, item.at, children);
      assert ([item'] + others)[1..] == others;
    }
  }

  // ---------------------------------------------------------------------
  // Items keep their own headings
  // ---------------------------------------------------------------------

  /** The item's id is the one its heading has. */
  predicate Owns(page: Page, e: Entry) {
    e.at < |page| && page[e.at] == Id(e.id)
  }

  /** The id item k has when item i's turn comes: the plain one, if it could take it,
      when it was done before. */
  function IdAt(page: Page, list: seq<Entry>, i: nat, k: nat): string
    requires k < |list|
  {
    if k < i then PlainId(page, list[k].id) else list[k].id
  }

  /** The list when item i's turn comes. */
  function DoneTo(page: Page, list: seq<Entry>, i: nat): (r: seq<Entry>)
    ensures |r| == |list|
    ensures forall k :: 0 <= k < |list| ==> r[k] == list[k].(id := IdAt(page, list, i, k))
  {
    seq(|list|, k requires 0 <= k < |list| => list[k].(id := IdAt(page, list, i, k)))
  }

  ghost predicate AllOwn(page: Page, list: seq<Entry>) {
    forall k :: 0 <= k < |list| ==> Owns(page, list[k])
  }

  ghost predicate DistinctIds(list: seq<Entry>) {
    forall a, b :: 0 <= a < |list| && 0 <= b < |list| && a != b ==> list[a].id != list[b].id
  }

  /** Item j, when its turn comes, takes no name that another item has. */
  ghost predicate NotTaken(page: Page, list: seq<Entry>, j: nat)
    requires j < |list|
  {
    Takes(page, list[j].id) ==>
      forall k :: 0 <= k < |list| && k != j ==> IdAt(page, list, j, k) != Plain(list[j].id)
  }

  /** None of the items from one on does. */
  ghost predicate NoneTaken(page: Page, list: seq<Entry>, from: nat) {
    forall j :: from <= j < |list| ==> NotTaken(page, list, j)
  }

  /** The two pages hold the same ids. */
  ghost predicate SameIds(page: Page, other: Page) {
    forall name :: Id(name) in page <==> Id(name) in other
  }

  /** An exchange keeps the ids a page holds, for an id that it holds. */
  lemma SwapSameIds(page: Page, id: string)
    requires Id(id) in page
    ensures SameIds(page, PlainPage(page, id))
  {
    if Takes(page, id) {
      var plain, page' := Plain(id), PlainPage(page, id);
      forall name
        ensures Id(name) in page <==> Id(name) in page'
      {
        SwapMovesId(page, plain, id, name);
        SwapMovesId(page, plain, id, Swapped(name, plain, id));
      }
    }
  }

  lemma SwapMovesId(page: Page, a: string, b: string, name: string)
    ensures Id(name) in page ==> Id(Swapped(name, a, b)) in Swap(page, a, b)
    ensures Id(name) in Swap(page, a, b) ==> Id(Swapped(name, a, b)) in page
  {
    var page' := Swap(page, a, b);
    if Id(name) in page {
      var k :| 0 <= k < |page| && page[k] == Id(name);
      assert page'[k] == Id(Swapped(name, a, b));
    }
    if Id(name) in page' {
      var k :| 0 <= k < |page'| && page'[k] == Id(name);
      assert page[k] == Id(Swapped(name, a, b));
    }
  }

  // The total length of the ids at the items' headings tells whether an exchange gave
  // one of them another item's name: only then does it not get shorter by the counter.

  function Weight(page: Page, list: seq<Entry>): nat
    requires forall k :: 0 <= k < |list| ==> list[k].at < |page| && page[list[k].at].Id?
  {
    if list == [] then 0 else |page[list[0].at].name| + Weight(page, list[1..])
  }

  function Length(list: seq<Entry>): nat {
    if list == [] then 0 else |list[0].id| + Length(list[1..])
  }

  /** By how much the ids of the items from i on get shorter. */
  function Shortening(page: Page, list: seq<Entry>, i: nat): nat
    decreases |list| - i
  {
    if i >= |list| then 0 else |list[i].id| - |PlainId(page, list[i].id)| + Shortening(page, list, i + 1)
  }

  ghost predicate AreHeadings(page: Page, list: seq<Entry>) {
    forall k :: 0 <= k < |list| ==> list[k].at < |page| && page[list[k].at].Id?
  }

  ghost predicate DistinctNames(page: Page, list: seq<Entry>)
    requires AreHeadings(page, list)
  {
    forall a, b :: 0 <= a < |list| && 0 <= b < |list| && a != b ==> page[list[a].at] != page[list[b].at]
  }

  /** Some item's heading has the name. */
  ghost predicate IsHeld(page: Page, list: seq<Entry>, name: string)
    requires AreHeadings(page, list)
  {
    exists k :: 0 <= k < |list| && page[list[k].at] == Id(name)
  }

  /** An exchange of a name with a longer one: of the headings that hold them, at most
      one each, one id gets as much longer as the other gets shorter. */
  lemma {:induction false} WeightSwapped(page: Page, list: seq<Entry>, a: string, b: string)
    requires AreHeadings(page, list) && DistinctNames(page, list) && |a| < |b|
    ensures AreHeadings(Swap(page, a, b), list)
    ensures Weight(Swap(page, a, b), list) + (if IsHeld(page, list, b) then |b| - |a| else 0) ==
            Weight(page, list) + (if IsHeld(page, list, a) then |b| - |a| else 0)
    decreases |list|
  {
    if list != [] {
      var rest := list[1..];
      RestHeadings(page, list);
      WeightSwapped(page, rest, a, b);
      HeldCons(page, list, a);
      HeldCons(page, list, b);
    }
  }

  lemma RestHeadings(page: Page, list: seq<Entry>)
    requires AreHeadings(page, list) && DistinctNames(page, list) && list != []
    ensures AreHeadings(page, list[1..]) && DistinctNames(page, list[1..])
    ensures !IsHeld(page, list[1..], page[list[0].at].name)
  {
    assert forall k :: 0 <= k < |list| - 1 ==> list[1..][k] == list[k + 1];
  }

  lemma HeldCons(page: Page, list: seq<Entry>, name: string)
    requires list != [] && AreHeadings(page, list) && AreHeadings(page, list[1..])
    ensures IsHeld(page, list, name) <==> page[list[0].at] == Id(name) || IsHeld(page, list[1..], name)
  {
    assert forall k :: 0 <= k < |list| - 1 ==> list[1..][k] == list[k + 1];
    if IsHeld(page, list, name) {
      var k :| 0 <= k < |list| && page[list[k].at] == Id(name);
      assert k > 0 ==> list[1..][k - 1] == list[k];
    }
  }

  lemma HeadingsKept(page: Page, list: seq<Entry>, id: string)
    requires AreHeadings(page, list) && DistinctNames(page, list)
    ensures AreHeadings(PlainPage(page, id), list) && DistinctNames(PlainPage(page, id), list)
  {
  }

  /** One item's turn: the weight drops by no more than the item's id shortens, and not
      at all when another heading has the name it takes. */
  lemma WeightStep(page: Page, list: seq<Entry>, id: string)
    requires AreHeadings(page, list) && DistinctNames(page, list)
    ensures AreHeadings(PlainPage(page, id), list)
    ensures Weight(PlainPage(page, id), list) + |id| - |PlainId(page, id)| >= Weight(page, list)
    ensures Takes(page, id) && IsHeld(page, list, Plain(id)) ==>
      Weight(PlainPage(page, id), list) >= Weight(page, list)
  {
    if Takes(page, id) {
      WeightSwapped(page, list, Plain(id), id);
    }
  }

  lemma ListStep(page: Page, list: seq<Entry>, i: nat)
    requires i < |list|
    ensures PlainList(page, list[i..]).0 == PlainList(PlainPage(page, list[i].id), list[i + 1..]).0
    ensures PlainList(page, list[i..]).1 ==
      [list[i].(id := PlainId(page, list[i].id))] + PlainList(PlainPage(page, list[i].id), list[i + 1..]).1
  {
    assert list[i..][0] == list[i] && list[i..][1..] == list[i + 1..];
  }

  lemma SameIdsStep(first: Page, page: Page, id: string)
    requires SameIds(first, page) && Id(id) in first
    ensures SameIds(first, PlainPage(page, id))
    ensures Takes(first, id) == Takes(page, id)
  {
    SwapSameIds(page, id);
  }

  ghost predicate AllOn(page: Page, list: seq<Entry>) {
    forall k :: 0 <= k < |list| ==> Id(list[k].id) in page
  }

  /** The weight never drops by more than the ids still to be done shorten. */
  lemma {:induction false} WeightKept(first: Page, page: Page, list: seq<Entry>, i: nat)
    requires i <= |list| && SameIds(first, page) && AllOn(first, list)
    requires AreHeadings(page, list) && DistinctNames(page, list)
    ensures var last := PlainList(page, list[i..]).0;
      AreHeadings(last, list) && Weight(last, list) + Shortening(first, list, i) >= Weight(page, list)
    decreases |list| - i
  {
    if i < |list| {
      var id := list[i].id;
      ListStep(page, list, i);
      SameIdsStep(first, page, id);
      HeadingsKept(page, list, id);
      WeightStep(page, list, id);
      WeightKept(first, PlainPage(page, id), list, i + 1);
    }
  }

  lemma {:induction false} OwnedWeight(page: Page, list: seq<Entry>, now: seq<Entry>)
    requires |now| == |list| && AllOwn(page, now)
    requires forall k :: 0 <= k < |list| ==> now[k].at == list[k].at
    ensures AreHeadings(page, list) && Weight(page, list) == Length(now)
    decreases |list|
  {
    assert forall k :: 0 <= k < |list| ==> Owns(page, now[k]);
    if list != [] {
      assert forall k :: 0 <= k < |list| - 1 ==> now[1..][k] == now[k + 1] && list[1..][k] == list[k + 1];
      OwnedWeight(page, list[1..], now[1..]);
    }
  }

  lemma {:induction false} LengthUpdated(list: seq<Entry>, i: nat, e: Entry)
    requires i < |list|
    ensures Length(list[i := e]) + |list[i].id| == Length(list) + |e.id|
    decreases |list|
  {
    if i == 0 {
      assert list[i := e][1..] == list[1..];
    } else {
      assert list[i := e][1..] == list[1..][i - 1 := e];
      LengthUpdated(list[1..], i - 1, e);
    }
  }

  lemma DoneNext(page: Page, list: seq<Entry>, i: nat)
    requires i < |list|
    ensures DoneTo(page, list, i + 1) == DoneTo(page, list, i)[i := list[i].(id := PlainId(page, list[i].id))]
  {
  }

  lemma {:induction false} LengthDone(page: Page, list: seq<Entry>, i: nat)
    requires i <= |list|
    ensures Length(DoneTo(page, list, |list|)) + Shortening(page, list, i) == Length(DoneTo(page, list, i))
    decreases |list| - i
  {
    if i < |list| {
      DoneNext(page, list, i);
      LengthUpdated(DoneTo(page, list, i), i, list[i].(id := PlainId(page, list[i].id)));
      LengthDone(page, list, i + 1);
    }
  }

  /** Every item ends with its plain id or its own, as the first page decides. */
  lemma {:induction false} IdsGiven(first: Page, page: Page, list: seq<Entry>, i: nat)
    requires i <= |list| && SameIds(first, page) && AllOn(first, list)
    ensures PlainList(page, list[i..]).1 == DoneTo(first, list, |list|)[i..]
    decreases |list| - i
  {
    if i < |list| {
      var id := list[i].id;
      ListStep(page, list, i);
      SameIdsStep(first, page, id);
      IdsGiven(first, PlainPage(page, id), list, i + 1);
      assert PlainId(page, id) == PlainId(first, id);
      DoneFrom(first, list, i);
    }
  }

  lemma DoneFrom(page: Page, list: seq<Entry>, i: nat)
    requires i < |list|
    ensures DoneTo(page, list, |list|)[i..] ==
      [list[i].(id := PlainId(page, list[i].id))] + DoneTo(page, list, |list|)[i + 1..]
  {
    var all := DoneTo(page, list, |list|);
    assert all[i] == list[i].(id := IdAt(page, list, |list|, i));
    assert all[i..] == [all[i]] + all[i + 1..];
  }

  ghost predicate Stand(first: Page, page: Page, list: seq<Entry>, i: nat) {
    && i <= |list| && SameIds(first, page) && AllOn(first, list)
    && AllOwn(page, DoneTo(first, list, i))
    && AreHeadings(page, list) && DistinctNames(page, list)
  }

  lemma OwnsAfterOther(page: Page, e: Entry, id: string)
    requires Owns(page, e) && e.id != id && e.id != Plain(id)
    ensures Owns(PlainPage(page, id), e)
  {
  }

  lemma OwnsAfterOwn(page: Page, e: Entry)
    requires Owns(page, e)
    ensures Owns(PlainPage(page, e.id), e.(id := PlainId(page, e.id)))
  {
  }

  /** A turn that takes no other item's name leaves every item its heading. */
  lemma StandNext(first: Page, page: Page, list: seq<Entry>, i: nat)
    requires i < |list| && Stand(first, page, list, i) && NotTaken(first, list, i)
    ensures Stand(first, PlainPage(page, list[i].id), list, i + 1)
  {
    var e, next := list[i], PlainPage(page, list[i].id);
    var now, now' := DoneTo(first, list, i), DoneTo(first, list, i + 1);
    SameIdsStep(first, page, e.id);
    HeadingsKept(page, list, e.id);
    assert now[i] == e;
    forall k | 0 <= k < |list|
      ensures Owns(next, now'[k])
    {
      assert Owns(page, now[k]) && Owns(page, now[i]);
      if k == i {
        OwnsAfterOwn(page, e);
      } else {
        assert now[k].id != e.id && now'[k] == now[k];
        if Takes(page, e.id) {
          OwnsAfterOther(page, now[k], e.id);
        }
      }
    }
  }

  /** A turn that takes another item's name costs some item its heading for good. */
  lemma TakenIsLost(first: Page, page: Page, list: seq<Entry>, i: nat)
    requires i < |list| && Stand(first, page, list, i) && !NotTaken(first, list, i)
    ensures !AllOwn(PlainList(page, list[i..]).0, DoneTo(first, list, |list|))
  {
    var last, done := PlainList(page, list[i..]).0, DoneTo(first, list, |list|);
    TakenIsHeld(first, page, list, i);
    WeightTooHigh(first, page, list, i);
    LengthDone(first, list, i);
    OwnedWeight(page, list, DoneTo(first, list, i));
    if AllOwn(last, done) {
      OwnedWeight(last, list, done);
      assert false;
    }
  }

  lemma TakenIsHeld(first: Page, page: Page, list: seq<Entry>, i: nat)
    requires i < |list| && Stand(first, page, list, i) && !NotTaken(first, list, i)
    ensures Takes(page, list[i].id) && IsHeld(page, list, Plain(list[i].id))
  {
    var now := DoneTo(first, list, i);
    SameIdsStep(first, page, list[i].id);
    var k :| 0 <= k < |list| && k != i && IdAt(first, list, i, k) == Plain(list[i].id);
    assert Owns(page, now[k]);
    assert page[list[k].at] == Id(Plain(list[i].id));
  }

  lemma WeightTooHigh(first: Page, page: Page, list: seq<Entry>, i: nat)
    requires i < |list| && SameIds(first, page) && AllOn(first, list)
    requires AreHeadings(page, list) && DistinctNames(page, list)
    requires Takes(page, list[i].id) && IsHeld(page, list, Plain(list[i].id))
    ensures var last := PlainList(page, list[i..]).0;
      AreHeadings(last, list) && Weight(last, list) + Shortening(first, list, i) > Weight(page, list)
  {
    NextWeight(page, list, list[i].id);
    RestWeight(first, page, list, i);
    SameIdsStep(first, page, list[i].id);
    ShorteningStep(first, list, i);
  }

  lemma NextWeight(page: Page, list: seq<Entry>, id: string)
    requires AreHeadings(page, list) && DistinctNames(page, list)
    requires Takes(page, id) && IsHeld(page, list, Plain(id))
    ensures AreHeadings(PlainPage(page, id), list) && DistinctNames(PlainPage(page, id), list)
    ensures Weight(PlainPage(page, id), list) >= Weight(page, list)
  {
    HeadingsKept(page, list, id);
    WeightStep(page, list, id);
  }

  lemma RestWeight(first: Page, page: Page, list: seq<Entry>, i: nat)
    requires i < |list| && SameIds(first, page) && AllOn(first, list)
    requires var next := PlainPage(page, list[i].id); AreHeadings(next, list) && DistinctNames(next, list)
    ensures var last := PlainList(page, list[i..]).0;
      && AreHeadings(last, list)
      && Weight(last, list) + Shortening(first, list, i + 1) >= Weight(PlainPage(page, list[i].id), list)
  {
    ListStep(page, list, i);
    SameIdsStep(first, page, list[i].id);
    WeightKept(first, PlainPage(page, list[i].id), list, i + 1);
  }

  lemma ShorteningStep(page: Page, list: seq<Entry>, i: nat)
    requires i < |list| && Takes(page, list[i].id)
    ensures Shortening(page, list, i) > Shortening(page, list, i + 1)
  {
  }

  lemma {:induction false} KeptExactly(first: Page, page: Page, list: seq<Entry>, i: nat)
    requires Stand(first, page, list, i)
    ensures AllOwn(PlainList(page, list[i..]).0, DoneTo(first, list, |list|)) <==> NoneTaken(first, list, i)
    decreases |list| - i
  {
    if i < |list| {
      if NotTaken(first, list, i) {
        ListStep(page, list, i);
        StandNext(first, page, list, i);
        KeptExactly(first, PlainPage(page, list[i].id), list, i + 1);
      } else {
        TakenIsLost(first, page, list, i);
      }
    }
  }

  /** The items' ids after all turns, and whether every item still has its heading's. */
  ghost predicate KeptWhenFree(page: Page, list: seq<Entry>, page': Page, list': seq<Entry>) {
    && |list'| == |list|
    && (forall k :: 0 <= k < |list| ==>
          && list'[k].at == list[k].at
          && list'[k].id == PlainId(page, list[k].id)
          && (list'[k].id == Plain(list[k].id) <==> Id(Plain(list[k].id)) in page))
    && (AllOwn(page', list') <==> NoneTaken(page, list, 0))
  }

  /** Main result: when the items' ids differ and each is its own heading's, every item
      ends with its plain id exactly when some heading of the page held that at the
      start; and all of them still have their own heading's id if and only if no item,
      when its turn comes, takes a name that another item has. */
  lemma ItemsKeepTheirHeadings(page: Page, items: seq<Item>)
    requires DistinctIds(Flat(items)) && AllOwn(page, Flat(items))
    ensures KeptWhenFree(page, Flat(items), PlainAll(page, items).0, Flat(PlainAll(page, items).1))
  {
    PlainIsFlat(page, items);
    ListKeepsHeadings(page, Flat(items));
  }

  lemma ListKeepsHeadings(page: Page, list: seq<Entry>)
    requires DistinctIds(list) && AllOwn(page, list)
    ensures KeptWhenFree(page, list, PlainList(page, list).0, PlainList(page, list).1)
  {
    StandFirst(page, list);
    IdsGiven(page, page, list, 0);
    KeptExactly(page, page, list, 0);
    var done := DoneTo(page, list, |list|);
    assert list[0..] == list && done[0..] == done;
    IdsAsDecided(page, list);
  }

  lemma IdsAsDecided(page: Page, list: seq<Entry>)
    requires AllOn(page, list)
    ensures forall k :: 0 <= k < |list| ==>
      (PlainId(page, list[k].id) == Plain(list[k].id) <==> Id(Plain(list[k].id)) in page)
  {
    forall k | 0 <= k < |list|
      ensures PlainId(page, list[k].id) == Plain(list[k].id) <==> Id(Plain(list[k].id)) in page
    {
      assert Id(list[k].id) in page;
    }
  }

  lemma StandFirst(page: Page, list: seq<Entry>)
    requires DistinctIds(list) && AllOwn(page, list)
    ensures Stand(page, page, list, 0)
  {
    assert DoneTo(page, list, 0) == list;
    assert forall k :: 0 <= k < |list| ==> Owns(page, list[k]);
  }

  /** An input where it fails: one item's plain id is another's id, and the exchange
      gives that other item's heading a new id its item does not follow. */
  lemma ClashLosesHeading()
    ensures var page, items := [Id("a"), Id("a_1")], [Item("a", 0, []), Item("a_1", 1, [])];
      && (forall k :: 0 <= k < |Flat(items)| ==> Owns(page, Flat(items)[k]))
      && !Owns(PlainAll(page, items).0, Flat(PlainAll(page, items).1)[0])
  {
    var page := [Id("a"), Id("a_1")];
    var a, b := Item("a", 0, []), Item("a_1", 1, []);
    PlainOfExample();
    assert [a, b][1..] == [b] && [b][1..] == [];
    assert Flat([b]) == [Entry("a_1", 1)] && Flat([a, b]) == [Entry("a", 0), Entry("a_1", 1)];
    assert !Takes(page, "a");
    assert page[0] == Id("a");
    assert Takes(page, "a_1");
    var page' := Swap(page, "a", "a_1");
    assert PlainAll(page', []) == (page', []);
    assert PlainAll(page, [b]) == (page', [Item("a", 1, [])] + []);
    assert PlainAll(page, [a, b]) == (page', [a] + ([Item("a", 1, [])] + []));
    assert Flat([a] + ([Item("a", 1, [])] + []))[0] == Entry("a", 0);
    assert page'[0] == Id("a_1");
  }

  lemma PlainOfExample()
    ensures Plain("a") == "a" && Plain("a_1") == "a"
  {
    var s := "a_1";
    assert s[..2] == "a_" && s[..1] == "a";
    assert TrailingDigits("a_") == 0;
    assert TrailingDigits(s) == 1;
    assert TrailingDigits("a") == 0;
  }
}
