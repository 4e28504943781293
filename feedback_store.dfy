/** The store behind the categoriser page: three lists of items, one per
    category, filled by the analysis run, re-filed by drag and drop and
    thinned by the delete buttons. */
module FeedbackStore {
  import opened Seqs
  import opened FeedbackAnalysis
  import opened FeedbackInput

  /** One stored item. Its id is generated from the clock and a random
      number; here it is an input. */
  datatype Item = Item(id: string, text: string, source: string, confidence: nat)

  /** `items.findIndex(item => item.id === id)`. */
  function IndexOfId(items: seq<Item>, id: string): (r: int)
    ensures -1 <= r < |items|
    ensures r == -1 <==> forall i :: 0 <= i < |items| ==> items[i].id != id
    ensures r >= 0 ==> items[r].id == id && forall i :: 0 <= i < r ==> items[i].id != id
  {
    if items == [] then -1
    else if items[0].id == id then 0
    else
      var r := IndexOfId(items[1..], id);
      if r == -1 then -1 else r + 1
  }

  /** `items.splice(i, 1)` on a copy: the item at `i` taken out, the others
      kept in their order. */
  function RemoveAt(items: seq<Item>, i: nat): (r: seq<Item>)
    requires i < |items|
    ensures |r| == |items| - 1
    ensures forall j :: 0 <= j < i ==> r[j] == items[j]
    ensures forall j :: i <= j < |r| ==> r[j] == items[j + 1]
    ensures multiset(r) + multiset{items[i]} == multiset(items)
  {
    assert items == items[..i] + [items[i]] + items[i + 1..];
    items[..i] + items[i + 1..]
  }

  /** `items.filter(item => item.id !== id)`: every item with that id goes,
      every other item stays, in order. */
  function WithoutId(items: seq<Item>, id: string): (r: seq<Item>)
    ensures IsSubsequence(r, items)
    ensures forall i :: 0 <= i < |r| ==> r[i].id != id
    ensures forall x :: multiset(r)[x] == if x.id != id then multiset(items)[x] else 0
  {
    FilterIsSubsequence(items, (x: Item) => x.id != id);
    FilterCounts(items, (x: Item) => x.id != id);
    Filter(items, (x: Item) => x.id != id)
  }

  /** The items an analysis pass files under `c`: item `i` gets the id
      `ids(i)`, the given source and the confidence of its analysis. */
  function Routed(texts: seq<string>, source: string, ids: nat -> string, c: Category): seq<Item>
  {
    if texts == [] then []
    else
      var n := |texts| - 1;
      Routed(texts[..n], source, ids, c) + Filed(texts[n], ids(n), source, c)
  }

  /** What one analysed text adds to the list of `c`: its item when it is
      filed under `c`, nothing otherwise. */
  function Filed(text: string, id: string, source: string, c: Category): seq<Item> {
    var a := Analyze(text);
    if a.category == c then [Item(id, text, source, a.confidence)] else []
  }

  /** One more text routed: it joins the list of its own category only. */
  lemma RoutedStep(texts: seq<string>, i: nat, source: string, ids: nat -> string, c: Category)
    requires i < |texts|
    ensures Routed(texts[..i + 1], source, ids, c) == Routed(texts[..i], source, ids, c) + Filed(texts[i], ids(i), source, c)
  {
    assert texts[..i + 1][..i] == texts[..i];
  }

  /** A list holding what was routed from the first `i` texts, once the
      text at `i` is filed, holds what is routed from the first `i + 1`. */
  lemma RoutedInvariantStep(prev: seq<Item>, base: seq<Item>, now: seq<Item>,
                            texts: seq<string>, i: nat, source: string, ids: nat -> string, c: Category)
    requires i < |texts|
    requires prev == base + Routed(texts[..i], source, ids, c)
    requires now == prev + Filed(texts[i], ids(i), source, c)
    ensures now == base + Routed(texts[..i + 1], source, ids, c)
  {
    RoutedStep(texts, i, source, ids, c);
  }

  /** Every analysed text lands in exactly one of the three lists. */
  lemma {:induction false} RoutedPartition(texts: seq<string>, source: string, ids: nat -> string)
    ensures |Routed(texts, source, ids, Impact)| + |Routed(texts, source, ids, Behavior)|
      + |Routed(texts, source, ids, Betterment)| == |texts|
  {
    if texts != [] {
      RoutedPartition(texts[..|texts| - 1], source, ids);
    }
  }

  /** The counts printed under "Review Statistics". */
  datatype ReviewStats = ReviewStats(total: nat, impact: nat, behavior: nat, betterment: nat)

  class Store {
    var impact: seq<Item>
    var behavior: seq<Item>
    var betterment: seq<Item>

    /** `feedbackStore[category]`. */
    function List(c: Category): seq<Item>
      reads this
    {
      match c
      case Impact => impact
      case Behavior => behavior
      case Betterment => betterment
    }

    function Total(): nat
      reads this
    {
      |List(Impact)| + |List(Behavior)| + |List(Betterment)|
    }

    constructor ()
      ensures forall c :: List(c) == []
    {
      impact, behavior, betterment := [], [], [];
    }

    /** The store is replaced by three empty lists when an analysis starts. */
    method Reset()
      modifies this
      ensures forall c :: List(c) == []
    {
      impact, behavior, betterment := [], [], [];
    }

    /** `feedbackStore[c] = items`. */
    method SetList(c: Category, items: seq<Item>)
      modifies this
      ensures List(c) == items
      ensures forall d :: d != c ==> List(d) == old(List(d))
      ensures Total() + |old(List(c))| == old(Total()) + |items|
    {
      match c
      case Impact => impact := items;
      case Behavior => behavior := items;
      case Betterment => betterment := items;
    }

    /** Files a new item at the end of its category. */
    method AddFeedbackItem(id: string, text: string, source: string, category: Category, confidence: nat)
      modifies this
      ensures List(category) == old(List(category)) + [Item(id, text, source, confidence)]
      ensures forall c :: c != category ==> List(c) == old(List(c))
      ensures Total() == old(Total()) + 1
    {
      SetList(category, List(category) + [Item(id, text, source, confidence)]);
    }

    /** Moving an item between categories: the first item with that id
        leaves the old list and is appended to the new one. */
    method Drop(id: string, oldCategory: Category, newCategory: Category)
      modifies this
      ensures oldCategory == newCategory || IndexOfId(old(List(oldCategory)), id) == -1 ==>
        forall c :: List(c) == old(List(c))
      ensures oldCategory != newCategory && IndexOfId(old(List(oldCategory)), id) != -1 ==>
        var i := IndexOfId(old(List(oldCategory)), id);
        && List(oldCategory) == RemoveAt(old(List(oldCategory)), i)
        && List(newCategory) == old(List(newCategory)) + [old(List(oldCategory))[i]]
        && forall c :: c != oldCategory && c != newCategory ==> List(c) == old(List(c))
      ensures Total() == old(Total())
    {
      if oldCategory != newCategory {
        var itemIndex := IndexOfId(List(oldCategory), id);
        if itemIndex != -1 {
          var item := List(oldCategory)[itemIndex];
          SetList(oldCategory, RemoveAt(List(oldCategory), itemIndex));
          SetList(newCategory, List(newCategory) + [item]);
        }
      }
    }

    /** The delete button: every item with that id leaves the named
        category; the other two are untouched. */
    method DeleteFeedbackItem(id: string, category: Category)
      modifies this
      ensures List(category) == WithoutId(old(List(category)), id)
      ensures forall c :: c != category ==> List(c) == old(List(c))
    {
      SetList(category, WithoutId(List(category), id));
    }

    /** One item of a text area: analysed, then filed at the end of the
        list of its category. */
    method FileText(text: string, id: string, source: string)
      modifies this
      ensures forall c :: List(c) == old(List(c)) + Filed(text, id, source, c)
    {
      var a := AnalyzeFeedback(text);
      AddFeedbackItem(id, text, source, a.category, a.confidence);
    }

    /** One analysis pass over the items of one text area: each item is
        analysed and filed under its category, in order. */
    method Ingest(texts: seq<string>, source: string, ids: nat -> string)
      modifies this
      ensures forall c :: List(c) == old(List(c)) + Routed(texts, source, ids, c)
      ensures Total() == old(Total()) + |texts|
    {
      for i := 0 to |texts|
        invariant forall c :: List(c) == old(List(c)) + Routed(texts[..i], source, ids, c)
      {
        label before:
        FileText(texts[i], ids(i), source);
        forall c
          ensures List(c) == old(List(c)) + Routed(texts[..i + 1], source, ids, c)
        {
          RoutedInvariantStep(old@before(List(c)), old(List(c)), List(c), texts, i, source, ids, c);
        }
      }
      assert texts[..|texts|] == texts;
      RoutedPartition(texts, source, ids);
    }

    /** The start button. Nothing happens unless both text areas are
        non-empty; otherwise the store is reset and filled from the
        feedback items, then from the accomplishment items. Answers whether
        the alert was shown instead. */
    method StartAnalysis(feedback: string, accomplishments: string,
                         feedbackIds: nat -> string, accomplishmentIds: nat -> string)
      returns (refused: bool)
      modifies this
      ensures refused <==> feedback == [] || accomplishments == []
      ensures refused ==> forall c :: List(c) == old(List(c))
      ensures !refused ==> forall c :: (List(c) ==
        Routed(FeedbackItems(feedback), "Feedback", feedbackIds, c)
        + Routed(AccomplishmentItems(accomplishments), "Accomplishment", accomplishmentIds, c))
      ensures !refused ==> Total() == |FeedbackItems(feedback)| + |AccomplishmentItems(accomplishments)|
    {
      if feedback == [] || accomplishments == [] {
        return true;
      }
      var f := FeedbackItems(feedback);
      var a := AccomplishmentItems(accomplishments);
      Reset();
      Ingest(f, "Feedback", feedbackIds);
      assert forall c :: List(c) == Routed(f, "Feedback", feedbackIds, c);
      Ingest(a, "Accomplishment", accomplishmentIds);
      return false;
    }

    /** The counts of the statistics block: the total is the sum of the
        three list lengths. */
    function Statistics(): (s: ReviewStats)
      reads this
      ensures s.total == s.impact + s.behavior + s.betterment == Total()
      ensures s.impact == |List(Impact)| && s.behavior == |List(Behavior)| && s.betterment == |List(Betterment)|
    {
      ReviewStats(|impact| + |behavior| + |betterment|, |impact|, |behavior|, |betterment|)
    }
  }
}
