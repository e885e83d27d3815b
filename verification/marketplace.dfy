/**
 * The marketplace page's listing logic (frontend/app/marketplace/page.tsx): the filter that
 * drops repeated cids and keeps the listings matching the search box, and the tag list a
 * card shows.
 *
 * A listing's metadata fields are strings, "" standing for a missing (falsy) field; its `tags`
 * field is whatever the metadata document held.
 */
module Marketplace {
  import opened Base
  import Text

  /** The `tags` field of a metadata document. */
  datatype Tags =
    | NoTags                      // missing or another falsy value
    | TagText(text: string)       // a comma-separated string ("" is falsy)
    | TagList(items: seq<string>) // an array of strings
    | TagOther                    // any other truthy value: a number, an object

  datatype Item = Item(cid: string, name: string, description: string, category: string, tags: Tags)

  /** `field && field.toLowerCase().includes(q)`, for a lower-cased `q`. */
  predicate FieldMatches(field: string, q: string)
  {
    field != "" && Text.Includes(Text.Lower(field), q)
  }

  /** The name, the description or the category matches the lower-cased query. */
  predicate TextFieldsMatch(it: Item, q: string)
  {
    FieldMatches(it.name, q) || FieldMatches(it.description, q) || FieldMatches(it.category, q)
  }

  /**
   * The search test as written: name, description, category, then `api.tags.toLowerCase()`,
   * which throws a TypeError (None) when the tags are truthy but not a string.
   */
  function MatchesAsWritten(it: Item, search: string): (r: Option<bool>)
    ensures r.None? <==> !TextFieldsMatch(it, Text.Lower(search)) && (it.tags.TagList? || it.tags.TagOther?)
    ensures r == Some(true) ==> Matches(it, search)
  {
    var q := Text.Lower(search);
    if TextFieldsMatch(it, q) then Some(true)
    else
      match it.tags
      case NoTags => Some(false)
      case TagText(t) => Some(FieldMatches(t, q))
      case _ => None
  }

  /** The search test as intended: an array of tags matches when one of its tags does. */
  predicate Matches(it: Item, search: string)
  {
    var q := Text.Lower(search);
    || TextFieldsMatch(it, q)
    || (it.tags.TagText? && FieldMatches(it.tags.text, q))
    || (it.tags.TagList? && exists k :: 0 <= k < |it.tags.items| && FieldMatches(it.tags.items[k], q))
  }

  /** On listings whose tags are missing or a string, the written test agrees with the intended one. */
  lemma MatchesAsWrittenAgrees(it: Item, search: string)
    requires it.tags.NoTags? || it.tags.TagText?
    ensures MatchesAsWritten(it, search) == Some(Matches(it, search))
  {
  }

  /*** Deduplication and search ***/

  /** The item at `i` has a truthy cid not seen at any earlier position. */
  predicate FirstOccurrence(items: seq<Item>, i: nat)
    requires i < |items|
  {
    items[i].cid != "" && forall j :: 0 <= j < i ==> items[j].cid != items[i].cid
  }

  /** The filter keeps position `i`: a first occurrence that passes the test `keep`. */
  predicate Kept(items: seq<Item>, i: nat, keep: Item -> bool)
    requires i < |items|
  {
    FirstOccurrence(items, i) && keep(items[i])
  }

  /** The positions below `n` the filter keeps, in increasing order. */
  function KeptIndices(items: seq<Item>, keep: Item -> bool, n: nat): (ix: seq<nat>)
    requires n <= |items|
    ensures forall a :: 0 <= a < |ix| ==> ix[a] < n && Kept(items, ix[a], keep)
    ensures forall a, b :: 0 <= a < b < |ix| ==> ix[a] < ix[b]
    ensures forall k :: 0 <= k < n && Kept(items, k, keep) ==> k in ix
    decreases n
  {
    if n == 0 then []
    else KeptIndices(items, keep, n - 1) + (if Kept(items, n - 1, keep) then [n - 1] else [])
  }

  /** The items at the given positions. */
  function Select(items: seq<Item>, ix: seq<nat>): seq<Item>
    requires forall a :: 0 <= a < |ix| ==> ix[a] < |items|
  {
    seq(|ix|, a requires 0 <= a < |ix| => items[ix[a]])
  }

  /** The search test the page applies: an empty search keeps everything. */
  function SearchTest(search: string): Item -> bool
  {
    it => search == "" || Matches(it, search)
  }

  /** What the filter shows, as intended: first occurrences of each cid that match the search. */
  function Filtered(items: seq<Item>, search: string): seq<Item>
  {
    Select(items, KeptIndices(items, SearchTest(search), |items|))
  }

  /** The cids of the items before position `i` (the filter's `seen` set there). */
  function CidsBefore(items: seq<Item>, i: nat): set<string>
    requires i <= |items|
  {
    set j | 0 <= j < i && items[j].cid != "" :: items[j].cid
  }

  /**
   * The page's filter pass, corrected to search array tags: one left-to-right walk with a
   * `seen` set. A cid is marked seen before the search test runs, so a first occurrence that
   * fails the search still hides its later duplicates.
   */
  method FilterListings(items: seq<Item>, search: string) returns (r: seq<Item>)
    ensures r == Filtered(items, search)
  {
    var keep := SearchTest(search);
    var seen: set<string> := {};
    ghost var ix: seq<nat> := [];
    r := [];
    var i := 0;
    while i < |items|
      invariant 0 <= i <= |items|
      invariant seen == CidsBefore(items, i)
      invariant ix == KeptIndices(items, keep, i)
      invariant r == Select(items, ix)
    {
      var it := items[i];
      if it.cid != "" && it.cid !in seen {
        seen := seen + {it.cid};
        if search == "" || Matches(it, search) {
          assert Kept(items, i, keep);
          r := r + [it];
          ix := ix + [i];
        }
      } else {
        assert !FirstOccurrence(items, i);
      }
      assert CidsBefore(items, i + 1) == CidsBefore(items, i) + (if it.cid != "" then {it.cid} else {});
      i := i + 1;
    }
  }

  /** The filter shows each cid at most once, and never an item without a cid. */
  lemma FilteredCidsDistinct(items: seq<Item>, search: string)
    ensures var r := Filtered(items, search);
      && (forall a :: 0 <= a < |r| ==> r[a].cid != "")
      && (forall a, b :: 0 <= a < b < |r| ==> r[a].cid != r[b].cid)
  {
  }

  /** With a non-empty search, every item shown matches it. */
  lemma FilteredMatchSearch(items: seq<Item>, search: string)
    requires search != ""
    ensures var r := Filtered(items, search);
      forall a :: 0 <= a < |r| ==> Matches(r[a], search)
  {
  }

  /**
   * An item is shown exactly when it is, at some position, the first occurrence of its cid
   * and passes the search.
   */
  lemma FilteredExactly(items: seq<Item>, search: string, x: Item)
    ensures x in Filtered(items, search)
        <==> exists i :: 0 <= i < |items| && items[i] == x && FirstOccurrence(items, i)
                         && (search == "" || Matches(x, search))
  {
    var ix := KeptIndices(items, SearchTest(search), |items|);
    var r := Filtered(items, search);
    if x in r {
      var a :| 0 <= a < |r| && r[a] == x;
      assert Kept(items, ix[a], SearchTest(search));
    }
    if exists i :: 0 <= i < |items| && items[i] == x && FirstOccurrence(items, i) && (search == "" || Matches(x, search)) {
      var i :| 0 <= i < |items| && items[i] == x && FirstOccurrence(items, i) && (search == "" || Matches(x, search));
      assert Kept(items, i, SearchTest(search));
      var a :| 0 <= a < |ix| && ix[a] == i;
      assert r[a] == x;
    }
  }

  /** Every truthy cid has a first occurrence, at or before any position holding it. */
  lemma {:induction false} HasFirstOccurrence(items: seq<Item>, j: nat)
    requires j < |items| && items[j].cid != ""
    ensures exists i :: 0 <= i <= j && items[i].cid == items[j].cid && FirstOccurrence(items, i)
    decreases j
  {
    if !FirstOccurrence(items, j) {
      var m :| 0 <= m < j && items[m].cid == items[j].cid;
      HasFirstOccurrence(items, m);
    }
  }

  /** With an empty search, every truthy cid of the listing is shown. */
  lemma EmptySearchShowsEveryCid(items: seq<Item>, j: nat)
    requires j < |items| && items[j].cid != ""
    ensures exists a :: 0 <= a < |Filtered(items, "")| && Filtered(items, "")[a].cid == items[j].cid
  {
    HasFirstOccurrence(items, j);
    var i :| 0 <= i <= j && items[i].cid == items[j].cid && FirstOccurrence(items, i);
    var ix := KeptIndices(items, SearchTest(""), |items|);
    assert Kept(items, i, SearchTest(""));
    var a :| 0 <= a < |ix| && ix[a] == i;
    assert Filtered(items, "")[a] == items[i];
  }

  /**
   * The first item with a given cid decides for every later one: when it fails the search,
   * no item with that cid is shown, even a later one that matches.
   */
  lemma FailingFirstOccurrenceHidesDuplicates(items: seq<Item>, search: string, j: nat)
    requires j < |items| && FirstOccurrence(items, j)
    requires search != "" && !Matches(items[j], search)
    ensures forall a :: 0 <= a < |Filtered(items, search)| ==> Filtered(items, search)[a].cid != items[j].cid
  {
  }

  /** Two tests that agree on every first occurrence keep the same positions. */
  lemma {:induction false} KeptIndicesAgree(items: seq<Item>, p: Item -> bool, q: Item -> bool, n: nat)
    requires n <= |items|
    requires forall k :: 0 <= k < n && FirstOccurrence(items, k) ==> p(items[k]) == q(items[k])
    ensures KeptIndices(items, p, n) == KeptIndices(items, q, n)
    decreases n
  {
    if n > 0 {
      KeptIndicesAgree(items, p, q, n - 1);
    }
  }

  /** The search is case-insensitive: lower-casing the query changes nothing. */
  lemma SearchCaseInsensitive(items: seq<Item>, search: string)
    ensures Filtered(items, Text.Lower(search)) == Filtered(items, search)
  {
    Text.LowerIdempotent(search);
    KeptIndicesAgree(items, SearchTest(Text.Lower(search)), SearchTest(search), |items|);
  }

  /*** The filter as written ***/

  /** The search test as written throws on the item at `k`: a first occurrence reaching the tag test with array or other tags. */
  predicate Throws(items: seq<Item>, k: nat, search: string)
    requires k < |items|
  {
    FirstOccurrence(items, k) && search != "" && MatchesAsWritten(items[k], search).None?
  }

  function WrittenTest(search: string): Item -> bool
  {
    it => search == "" || MatchesAsWritten(it, search) == Some(true)
  }

  /**
   * The filter as written: `Array.prototype.filter` propagates the first TypeError from its
   * callback, so the whole list is lost (None) when any visited item throws.
   */
  function FilterAsWritten(items: seq<Item>, search: string): (r: Option<seq<Item>>)
    ensures r.None? <==> exists k :: 0 <= k < |items| && Throws(items, k, search)
    ensures r.Some? ==> r.value == Filtered(items, search)
  {
    if exists k :: 0 <= k < |items| && Throws(items, k, search) then None
    else
      forall k | 0 <= k < |items| && FirstOccurrence(items, k)
        ensures WrittenTest(search)(items[k]) == SearchTest(search)(items[k])
      {
        assert !Throws(items, k, search);
      }
      KeptIndicesAgree(items, WrittenTest(search), SearchTest(search), |items|);
      Some(Select(items, KeptIndices(items, WrittenTest(search), |items|)))
  }

  /** When no listing has array or other non-string tags, the written filter shows what the intended one does. */
  lemma FilterAsWrittenAgrees(items: seq<Item>, search: string)
    requires forall k :: 0 <= k < |items| ==> items[k].tags.NoTags? || items[k].tags.TagText?
    ensures FilterAsWritten(items, search) == Some(Filtered(items, search))
  {
    forall k | 0 <= k < |items| ensures WrittenTest(search)(items[k]) == SearchTest(search)(items[k]) {
      MatchesAsWrittenAgrees(items[k], search);
    }
    KeptIndicesAgree(items, WrittenTest(search), SearchTest(search), |items|);
  }

  /**
   * One listing whose tags are an array, searched for one of its tags: the written filter
   * throws and the page shows nothing, while the intended filter shows the listing.
   */
  lemma ArrayTagsBreakSearch()
    ensures var items := [Item("bafy1", "", "", "", TagList(["weather"]))];
      && FilterAsWritten(items, "weather").None?
      && Filtered(items, "weather") == items
  {
    var items := [Item("bafy1", "", "", "", TagList(["weather"]))];
    Text.LowerFixesNoUpper("weather");
    assert Text.StartsWith("weather", "weather");
    assert FilterAsWritten(items, "weather").None? by {
      assert Throws(items, 0, "weather");
    }
    assert Filtered(items, "weather") == items by {
      assert FieldMatches(items[0].tags.items[0], Text.Lower("weather"));
      assert Matches(items[0], "weather");
      assert Kept(items, 0, SearchTest("weather"));
      assert KeptIndices(items, SearchTest("weather"), 1) == [0];
    }
  }

  /*** Tags on a card ***/

  /** `parts.filter(Boolean)`: the non-empty strings, in order. */
  function DropEmpty(parts: seq<string>): (r: seq<string>)
    ensures |r| <= |parts|
    ensures forall k :: 0 <= k < |r| ==> r[k] != "" && r[k] in parts
    ensures forall k :: 0 <= k < |parts| && parts[k] != "" ==> parts[k] in r
    decreases |parts|
  {
    if |parts| == 0 then []
    else if parts[0] == "" then DropEmpty(parts[1..])
    else [parts[0]] + DropEmpty(parts[1..])
  }

  /** Dropping empty strings from a list with none is the identity. */
  lemma {:induction false} DropEmptyKeepsNonEmpty(parts: seq<string>)
    requires forall k :: 0 <= k < |parts| ==> parts[k] != ""
    ensures DropEmpty(parts) == parts
    decreases |parts|
  {
    if |parts| > 0 {
      DropEmptyKeepsNonEmpty(parts[1..]);
    }
  }

  /** Dropping empty strings distributes over concatenation: order and repeats are kept. */
  lemma {:induction false} DropEmptyAppend(a: seq<string>, b: seq<string>)
    ensures DropEmpty(a + b) == DropEmpty(a) + DropEmpty(b)
    decreases |a|
  {
    if |a| > 0 {
      assert (a + b)[0] == a[0];
      assert (a + b)[1..] == a[1..] + b;
      DropEmptyAppend(a[1..], b);
    } else {
      assert a + b == b;
    }
  }

  /** On one piece, `filter(Boolean)` keeps it exactly when it is non-empty. */
  lemma DropEmptySingle(x: string)
    ensures DropEmpty([x]) == if x == "" then [] else [x]
  {
  }

  /** Each piece trimmed. */
  function TrimAll(parts: seq<string>): seq<string>
  {
    seq(|parts|, k requires 0 <= k < |parts| => Text.Trim(parts[k]))
  }

  /** Trimming keeps a character out of every piece that did not contain it. */
  lemma TrimAllKeepsAbsent(parts: seq<string>, c: char)
    requires forall k :: 0 <= k < |parts| ==> c !in parts[k]
    ensures forall k :: 0 <= k < |parts| ==> c !in TrimAll(parts)[k]
  {
    forall k | 0 <= k < |parts| ensures c !in TrimAll(parts)[k] {
      Text.TrimKeepsAbsent(parts[k], c);
    }
  }

  /**
   * The tags a card shows: a string is split at commas, each piece trimmed and empty ones
   * dropped; an array is shown as it is; anything else shows no tags.
   */
  function TagsArray(tags: Tags): (r: seq<string>)
    ensures tags.TagText? ==> forall k :: 0 <= k < |r| ==> r[k] != "" && Text.Trimmed(r[k]) && ',' !in r[k]
    ensures tags.TagList? ==> r == tags.items
    ensures tags.NoTags? || tags.TagOther? ==> r == []
  {
    match tags
    case TagText(t) =>
      var pieces := Text.Split(t, ',');
      TrimAllKeepsAbsent(pieces, ',');
      DropEmpty(TrimAll(pieces))
    case TagList(items) => items
    case _ => []
  }

  /**
   * The tags of any comma-separated string: its comma-free pieces, each trimmed, empty ones
   * dropped. Every string is such a join (`Text.JoinSplit`), so this covers every tag string.
   */
  lemma TagsArrayOfPieces(pieces: seq<string>)
    requires |pieces| >= 1
    requires forall k :: 0 <= k < |pieces| ==> ',' !in pieces[k]
    ensures TagsArray(TagText(Text.Join(pieces, ','))) == DropEmpty(TrimAll(pieces))
  {
    Text.SplitJoin(pieces, ',');
  }

  /** Tags joined with commas read back as the same tags, when each is non-empty, trimmed and comma-free. */
  lemma TagsArrayOfJoin(tags: seq<string>)
    requires |tags| >= 1
    requires forall k :: 0 <= k < |tags| ==> tags[k] != "" && Text.Trimmed(tags[k]) && ',' !in tags[k]
    ensures TagsArray(TagText(Text.Join(tags, ','))) == tags
  {
    TagsArrayOfPieces(tags);
    TrimAllFixesTrimmed(tags);
    DropEmptyKeepsNonEmpty(tags);
  }

  /** Trimming pieces that are already trimmed changes none of them. */
  lemma TrimAllFixesTrimmed(parts: seq<string>)
    requires forall k :: 0 <= k < |parts| ==> Text.Trimmed(parts[k])
    ensures TrimAll(parts) == parts
  {
    forall k | 0 <= k < |parts| ensures TrimAll(parts)[k] == parts[k] {
      Text.TrimFixesTrimmed(parts[k]);
    }
  }
}
