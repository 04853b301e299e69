/**
 * The views of a parsed URL that the resolver reads, standing in for
 * Foundation's `url.host`, `url.pathComponents` and
 * `URLComponents.queryItems`, and the `first(where:)` search over the items.
 */
module UrlComponents {
  import opened Wrappers
  import opened Text
  import opened Uri

  /** `url.host` as written, without Foundation's percent-decoding; absent when the URL has no authority. */
  function Host(u: Url): Option<string>
  {
    if u.authority.Some? then Some(u.authority.value.host) else None
  }

  /** The non-empty strings of `parts`, in order. */
  function NonEmpty(parts: seq<string>): seq<string>
  {
    if parts == [] then []
    else (if parts[0] == [] then [] else [parts[0]]) + NonEmpty(parts[1..])
  }

  lemma {:induction false} NonEmptyAppend(parts: seq<string>, last: string)
    ensures NonEmpty(parts + [last]) == NonEmpty(parts) + (if last == [] then [] else [last])
    decreases |parts|
  {
    if parts == [] {
      assert parts + [last] == [last];
    } else {
      assert (parts + [last])[1..] == parts[1..] + [last];
      NonEmptyAppend(parts[1..], last);
    }
  }

  /**
   * `url.pathComponents`: "/" first when the path is absolute, then the
   * non-empty '/'-separated segments (so repeated and trailing slashes
   * add nothing).
   */
  function PathComponents(path: string): seq<string>
  {
    (if path != [] && path[0] == '/' then ["/"] else []) + NonEmpty(Split(path, '/'))
  }

  predicate AllSlashes(s: string)
  {
    forall i :: 0 <= i < |s| ==> s[i] == '/'
  }

  lemma {:induction false} SegmentsOfSlashes(s: string)
    requires AllSlashes(s)
    ensures NonEmpty(Split(s, '/')) == []
    decreases |s|
  {
    if s != [] {
      assert s == [] + ['/'] + s[1..];
      SplitConcat([], '/', s[1..]);
      assert Split([], '/') == [[]];
      SegmentsOfSlashes(s[1..]);
    }
  }

  /** Trailing slashes do not change the segments. */
  lemma {:induction false} SegmentsIgnoreTrailingSlashes(s: string, tail: string)
    requires AllSlashes(tail)
    ensures NonEmpty(Split(s + tail, '/')) == NonEmpty(Split(s, '/'))
    decreases |tail|
  {
    if tail == [] {
      assert s + tail == s;
    } else {
      var shorter := tail[..|tail| - 1];
      assert s + tail == (s + shorter) + ['/'] + [];
      SplitConcat(s + shorter, '/', []);
      assert Split([], '/') == [[]];
      NonEmptyAppend(Split(s + shorter, '/'), []);
      SegmentsIgnoreTrailingSlashes(s, shorter);
    }
  }

  /** A path with no segment: "/" when it is absolute, nothing when it is empty. */
  lemma LastComponentOfSlashes(path: string)
    requires AllSlashes(path)
    ensures Last(PathComponents(path)) == if path == [] then None else Some("/")
  {
    SegmentsOfSlashes(path);
  }

  /** The segments of a path that ends in a segment end with that segment. */
  lemma {:induction false} SegmentsEndWith(before: string, segment: string) returns (earlier: seq<string>)
    requires segment != [] && '/' !in segment
    requires before == [] || before[|before| - 1] == '/'
    ensures NonEmpty(Split(before + segment, '/')) == earlier + [segment]
  {
    if before == [] {
      assert before + segment == segment;
      assert Split(segment, '/') == [segment];
      earlier := [];
    } else {
      var prefix := before[..|before| - 1];
      assert before + segment == prefix + ['/'] + segment;
      SplitConcat(prefix, '/', segment);
      assert Split(segment, '/') == [segment];
      NonEmptyAppend(Split(prefix, '/'), segment);
      earlier := NonEmpty(Split(prefix, '/'));
    }
  }

  /**
   * The last path component is the last segment: the run of non-'/'
   * characters that only slashes follow.
   */
  lemma LastComponentIsLastSegment(path: string, before: string, segment: string, tail: string)
    requires path == before + segment + tail
    requires segment != [] && '/' !in segment && AllSlashes(tail)
    requires before == [] || before[|before| - 1] == '/'
    ensures Last(PathComponents(path)) == Some(segment)
  {
    SegmentsIgnoreTrailingSlashes(before + segment, tail);
    var earlier := SegmentsEndWith(before, segment);
    var lead: seq<string> := if path != [] && path[0] == '/' then ["/"] else [];
    assert PathComponents(path) == (lead + earlier) + [segment];
  }

  lemma {:induction false} NonEmptyMember(parts: seq<string>, x: string)
    requires x in NonEmpty(parts)
    ensures x in parts
    decreases |parts|
  {
    if parts != [] && x !in [parts[0]] {
      assert NonEmpty(parts) == (if parts[0] == [] then [] else [parts[0]]) + NonEmpty(parts[1..]);
      NonEmptyMember(parts[1..], x);
    }
  }

  /** The last path component occurs in the path as written. */
  lemma LastComponentOccurs(path: string) returns (k: nat)
    requires Last(PathComponents(path)).Some?
    ensures OccursAt(Last(PathComponents(path)).value, path, k)
  {
    var lead: seq<string> := if path != [] && path[0] == '/' then ["/"] else [];
    var parts := Split(path, '/');
    var segments := NonEmpty(parts);
    var comps := PathComponents(path);
    var last := comps[|comps| - 1];
    if segments == [] {
      assert last == "/";
      assert path[0..1] == "/";
      k := 0;
    } else {
      assert last == segments[|segments| - 1];
      NonEmptyMember(parts, last);
      var i :| 0 <= i < |parts| && parts[i] == last;
      k := PartOccurs(parts, '/', i);
    }
  }

  /** One query item: a name and, when the text had an '=', a value. */
  datatype QueryItem = QueryItem(name: string, value: Option<string>)

  /** An item's text: the name up to the first '=', the value after it. */
  function ParseQueryItem(text: string): QueryItem
  {
    var (name, value) := SplitFirst(text, '=');
    QueryItem(name, value)
  }

  function QueryItemText(item: QueryItem): string
  {
    item.name + (if item.value.Some? then "=" + item.value.value else "")
  }

  /** Reading an item's text back gives the item, for every item whose name has no '='. */
  lemma QueryItemRoundTrip(item: QueryItem)
    requires '=' !in item.name
    ensures ParseQueryItem(QueryItemText(item)) == item
  {
    if item.value.Some? {
      ConcatAssoc(item.name, "=", item.value.value);
      SplitFirstAt(item.name, '=', item.value.value);
    } else {
      assert QueryItemText(item) == item.name;
    }
  }

  /** The text of a parsed item is the text it was parsed from. */
  lemma QueryItemTextOfParse(text: string)
    ensures QueryItemText(ParseQueryItem(text)) == text
  {
    var (name, value) := SplitFirst(text, '=');
    if value.Some? {
      ConcatAssoc(name, "=", value.value);
    } else {
      assert name + "" == name;
    }
  }

  function ParseQueryItems(parts: seq<string>): seq<QueryItem>
  {
    seq(|parts|, i requires 0 <= i < |parts| => ParseQueryItem(parts[i]))
  }

  /**
   * `URLComponents.queryItems`: absent without a query, empty for an empty
   * query, otherwise one item per '&'-separated part.
   */
  function QueryItems(query: Option<string>): Option<seq<QueryItem>>
  {
    match query
    case None => None
    case Some(q) => if q == [] then Some([]) else Some(ParseQueryItems(Split(q, '&')))
  }

  lemma FirstQueryItem(query: string)
    requires query != []
    ensures QueryItems(Some(query)).value[0] == ParseQueryItem(Split(query, '&')[0])
  {
  }

  /** The value of the first item called `name` occurs in the query as written. */
  lemma FirstValueOccurs(query: string, name: string) returns (k: nat)
    requires query != [] && FirstValue(QueryItems(Some(query)).value, name).Some?
    ensures OccursAt(FirstValue(QueryItems(Some(query)).value, name).value, query, k)
  {
    var parts := Split(query, '&');
    var items := QueryItems(Some(query)).value;
    var f := FirstIndexNamed(items, name);
    assert items[f] == ParseQueryItem(parts[f]);
    // The value sits after the first '=' of the item's text.
    var (itemName, value) := SplitFirst(parts[f], '=');
    var i := |itemName| + 1;
    assert parts[f] == itemName + ['='] + value.value;
    assert parts[f][i..i + |value.value|] == value.value;
    k := OccursInPart(items[f].value.value, parts, '&', f, i);
  }

  /** Index of the first item called `name`, or `|items|` when there is none. */
  function FirstIndexNamed(items: seq<QueryItem>, name: string): (k: nat)
    ensures k <= |items|
    ensures forall j :: 0 <= j < k ==> items[j].name != name
    ensures k < |items| ==> items[k].name == name
  {
    if items == [] then 0
    else if items[0].name == name then 0
    else 1 + FirstIndexNamed(items[1..], name)
  }

  /** `items.first(where: { $0.name == name })?.value`. */
  function FirstValue(items: seq<QueryItem>, name: string): Option<string>
  {
    var k := FirstIndexNamed(items, name);
    if k < |items| then items[k].value else None
  }

  /** Item `k` is the first one called `name`. */
  predicate FirstNamedAt(items: seq<QueryItem>, name: string, k: int)
  {
    0 <= k < |items| && items[k].name == name && forall j :: 0 <= j < k ==> items[j].name != name
  }

  /**
   * FirstValue gives `v` exactly when the first item called `name` has
   * the value `v`.
   */
  lemma FirstValueIff(items: seq<QueryItem>, name: string, v: string)
    ensures FirstValue(items, name) == Some(v) <==>
      exists k :: FirstNamedAt(items, name, k) && items[k].value == Some(v)
  {
    var f := FirstIndexNamed(items, name);
    if FirstValue(items, name) == Some(v) {
      assert FirstNamedAt(items, name, f);
    }
    forall k | FirstNamedAt(items, name, k) && items[k].value == Some(v)
      ensures FirstValue(items, name) == Some(v)
    {
      assert f == k;
    }
  }

  /** Items after one called `name` do not matter. */
  lemma FirstValueIgnoresLater(items: seq<QueryItem>, later: seq<QueryItem>, name: string)
    requires FirstIndexNamed(items, name) < |items|
    ensures FirstValue(items + later, name) == FirstValue(items, name)
  {
    var k := FirstIndexNamed(items, name);
    var all := items + later;
    var f := FirstIndexNamed(all, name);
    assert all[k] == items[k];
    forall j | 0 <= j < k ensures all[j].name != name { assert all[j] == items[j]; }
  }
}
