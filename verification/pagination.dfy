/** The paginated prompt fetcher of coaiapy/cofuse.py (`list_prompts`).

    The remote server is an oracle from the page value put in `?page=` to what
    the GET returned. Because a server can keep pointing at pages forever (a
    `nextPage` that points back, say), the fetch is bounded by `fuel`, the
    number of pages it may request; the Python loop has no such bound. */
module Pagination {
  import opened Wrappers
  import opened PyJson

  /** One `requests.get` of a page, as `list_prompts` sees it. */
  datatype Response =
    | Failed        // status code other than 200
    | Unparsable    // `r.json()` raised ValueError
    | Body(data: Json)

  type Server = Json -> Response

  /** The pagination decision taken after a page's items were kept. */
  datatype Next = Stop | Goto(page: Json) | Raise(error: PyError)

  /** The outcome of fetching: all items, an exception that escaped the loop
      (the items gathered so far are lost with it), or the fuel ran out. */
  datatype Fetched =
    | Done(items: seq<Json>)
    | Raised(error: PyError)
    | OutOfFuel(items: seq<Json>)

  /** `data.get('data')` for an object, the whole body otherwise. */
  function Payload(data: Json): Json {
    if data.JObj? then Get(data.fields, "data", JNull) else data
  }

  /** The items a page contributes, or None when its payload is falsy (which
      ends the fetch before the page is counted). A list is contributed
      element by element, anything else as one item. */
  function PageItems(data: Json): (r: Option<seq<Json>>)
    ensures r.None? <==> !Truthy(Payload(data))
    ensures r.Some? ==> |r.value| > 0
    ensures r.Some? && Payload(data).JArr? ==> r.value == Payload(data).items
    ensures r.Some? && !Payload(data).JArr? ==> r.value == [Payload(data)]
    ensures data.JArr? ==> (r.Some? <==> |data.items| > 0)
  {
    var payload := Payload(data);
    if !Truthy(payload) then None
    else if payload.JArr? then Some(payload.items)
    else Some([payload])
  }

  /** `page += 1` on the loop's own page variable. */
  function Advance(page: Json): Next {
    match PlusOne(page)
    case Some(p) => Goto(p)
    case None => Raise(TypeError)
  }

  /** The pagination checks of `list_prompts`, as written: the meta block first
      (its `.get` raises AttributeError on a truthy non-object), then
      `hasNextPage`, `nextPage` and a top-level `totalPages`. A body that is not
      an object never continues. */
  function NextPage(page: Json, data: Json): (n: Next)
    ensures !data.JObj? ==> n == Stop
  {
    if !data.JObj? then Stop
    else
      var fields := data.fields;
      var meta := Get(fields, "meta", JObj([]));
      if Truthy(meta) && !meta.JObj? then Raise(AttributeError)
      else if Truthy(meta) && Truthy(Get(meta.fields, "totalPages", JNull)) then
        var current := Get(meta.fields, "page", page);
        var total := Get(meta.fields, "totalPages", JNull);
        match Less(current, total)
        case None => Raise(TypeError)
        case Some(more) => if more then Advance(page) else Stop
      else if Truthy(Get(fields, "hasNextPage", JNull)) then Advance(page)
      else if Truthy(Get(fields, "nextPage", JNull)) then Goto(Get(fields, "nextPage", JNull))
      else if Truthy(Get(fields, "totalPages", JNull)) then
        match Less(page, Get(fields, "totalPages", JNull))
        case None => Raise(TypeError)
        case Some(more) => if more then Advance(page) else Stop
      else Stop
  }

  // ---------------------------------------------------------------------------
  // The same decision as an ordered rule list: the first rule that applies
  // decides, and when none applies the fetch stops.

  type Rule = (Json, Json) -> Option<Next>

  /** Rule 1: a truthy `meta` with a truthy `totalPages` decides alone. */
  function MetaRule(page: Json, fields: seq<(string, Json)>): Option<Next> {
    var meta := Get(fields, "meta", JObj([]));
    if !Truthy(meta) then None
    else if !meta.JObj? then Some(Raise(AttributeError))
    else if !Truthy(Get(meta.fields, "totalPages", JNull)) then None
    else match Less(Get(meta.fields, "page", page), Get(meta.fields, "totalPages", JNull))
      case None => Some(Raise(TypeError))
      case Some(more) => Some(if more then Advance(page) else Stop)
  }

  /** Rule 2: a truthy `hasNextPage` moves to the next page. */
  function HasNextPageRule(page: Json, fields: seq<(string, Json)>): Option<Next> {
    if Truthy(Get(fields, "hasNextPage", JNull)) then Some(Advance(page)) else None
  }

  /** Rule 3: a truthy `nextPage` is the next page, whatever it is. */
  function NextPageRule(page: Json, fields: seq<(string, Json)>): Option<Next> {
    var next := Get(fields, "nextPage", JNull);
    if Truthy(next) then Some(Goto(next)) else None
  }

  /** Rule 4: a truthy top-level `totalPages` above the page moves on. */
  function TotalPagesRule(page: Json, fields: seq<(string, Json)>): Option<Next> {
    var total := Get(fields, "totalPages", JNull);
    if !Truthy(total) then None
    else match Less(page, total)
      case None => Some(Raise(TypeError))
      case Some(more) => if more then Some(Advance(page)) else None
  }

  function Rules(): seq<Rule> {
    [ (p: Json, d: Json) => if d.JObj? then MetaRule(p, d.fields) else None,
      (p: Json, d: Json) => if d.JObj? then HasNextPageRule(p, d.fields) else None,
      (p: Json, d: Json) => if d.JObj? then NextPageRule(p, d.fields) else None,
      (p: Json, d: Json) => if d.JObj? then TotalPagesRule(p, d.fields) else None ]
  }

  function FirstApplying(rules: seq<Rule>, page: Json, data: Json): Next {
    if |rules| == 0 then Stop
    else match rules[0](page, data)
      case Some(n) => n
      case None => FirstApplying(rules[1..], page, data)
  }

  /** The rules applied in turn to an object body's fields. */
  function Chain(page: Json, fields: seq<(string, Json)>): Next {
    match MetaRule(page, fields)
    case Some(n) => n
    case None =>
      match HasNextPageRule(page, fields)
      case Some(n) => n
      case None =>
        match NextPageRule(page, fields)
        case Some(n) => n
        case None =>
          match TotalPagesRule(page, fields)
          case Some(n) => n
          case None => Stop
  }

  lemma NextPageIsChain(page: Json, data: Json)
    requires data.JObj?
    ensures NextPage(page, data) == Chain(page, data.fields)
  {
  }

  lemma ChainIsFirstApplying(page: Json, data: Json)
    requires data.JObj?
    ensures Chain(page, data.fields) == FirstApplying(Rules(), page, data)
  {
    var rs := Rules();
    assert rs[1..][1..] == rs[2..];
    assert rs[2..][1..] == rs[3..] && rs[3..][1..] == rs[4..] && rs[4..] == [];
    var f4 := FirstApplying(rs[4..], page, data);
    var f3 := FirstApplying(rs[3..], page, data);
    var f2 := FirstApplying(rs[2..], page, data);
    var f1 := FirstApplying(rs[1..], page, data);
  }

  /** No rule applies to a body that is not an object. */
  lemma NoRuleForNonObject(page: Json, data: Json)
    requires !data.JObj?
    ensures FirstApplying(Rules(), page, data) == Stop
  {
    var rs := Rules();
    assert rs[1..][1..] == rs[2..];
    assert rs[2..][1..] == rs[3..] && rs[3..][1..] == rs[4..] && rs[4..] == [];
    var f4 := FirstApplying(rs[4..], page, data);
    var f3 := FirstApplying(rs[3..], page, data);
    var f2 := FirstApplying(rs[2..], page, data);
    var f1 := FirstApplying(rs[1..], page, data);
  }

  /** The if/elif chain of `list_prompts` is the ordered rule list. */
  lemma NextPageIsFirstApplyingRule(page: Json, data: Json)
    ensures NextPage(page, data) == FirstApplying(Rules(), page, data)
  {
    if data.JObj? {
      NextPageIsChain(page, data);
      ChainIsFirstApplying(page, data);
    } else {
      NoRuleForNonObject(page, data);
    }
  }

  // ---------------------------------------------------------------------------
  // The fetch

  /** The items of all pages fetched from `page` on, in fetch order. */
  function Collect(server: Server, page: Json, fuel: nat): Fetched
    decreases fuel, 1
  {
    if fuel == 0 then OutOfFuel([])
    else match server(page)
      case Body(data) => CollectPage(server, page, data, fuel)
      case _ => Done([])
  }

  /** The same once the body of `page` has arrived. */
  function CollectPage(server: Server, page: Json, data: Json, fuel: nat): Fetched
    requires fuel > 0
    decreases fuel, 0
  {
    match PageItems(data)
    case None => Done([])
    case Some(items) =>
      match NextPage(page, data)
      case Stop => Done(items)
      case Raise(e) => Raised(e)
      case Goto(next) => Prepend(items, Collect(server, next, fuel - 1))
  }

  /** Items gathered before are kept in front of whatever the rest yields. */
  function Prepend(earlier: seq<Json>, rest: Fetched): Fetched
  {
    match rest
    case Done(items) => Done(earlier + items)
    case OutOfFuel(items) => OutOfFuel(earlier + items)
    case Raised(e) => Raised(e)
  }

  /** The same fetch with the loop's accumulator: `acc` holds the items of the
      pages fetched before `page`. */
  function FetchFrom(server: Server, page: Json, acc: seq<Json>, fuel: nat): Fetched
    decreases fuel, 1
  {
    if fuel == 0 then OutOfFuel(acc)
    else match server(page)
      case Body(data) => FetchPage(server, page, data, acc, fuel)
      case _ => Done(acc)
  }

  /** The same once the body of `page` has arrived. */
  function FetchPage(server: Server, page: Json, data: Json, acc: seq<Json>, fuel: nat): Fetched
    requires fuel > 0
    decreases fuel, 0
  {
    match PageItems(data)
    case None => Done(acc)
    case Some(items) =>
      match NextPage(page, data)
      case Stop => Done(acc + items)
      case Raise(e) => Raised(e)
      case Goto(next) => FetchFrom(server, next, acc + items, fuel - 1)
  }

  /** The accumulator keeps the earlier pages' items in front of the rest. */
  lemma {:induction false} FetchFromIsPrependCollect(server: Server, page: Json, acc: seq<Json>, fuel: nat)
    ensures FetchFrom(server, page, acc, fuel) == Prepend(acc, Collect(server, page, fuel))
    decreases fuel
  {
    if fuel == 0 {
      assert acc + [] == acc;
    } else {
      match server(page)
      case Failed => assert acc + [] == acc;
      case Unparsable => assert acc + [] == acc;
      case Body(data) =>
        match PageItems(data)
        case None => assert acc + [] == acc;
        case Some(items) =>
          match NextPage(page, data)
          case Stop =>
          case Raise(e) =>
          case Goto(next) =>
            FetchFromIsPrependCollect(server, next, acc + items, fuel - 1);
            PrependTwice(acc, items, Collect(server, next, fuel - 1));
    }
  }

  /** One turn of the `while True` loop, for a page the fuel still covers:
      either the fetch ends with `out`, or it goes on at `page'` with `all'`. */
  method Turn(server: Server, page: Json, all: seq<Json>, remaining: nat)
    returns (finished: bool, out: Fetched, page': Json, all': seq<Json>)
    requires remaining > 0
    ensures finished ==> out == FetchFrom(server, page, all, remaining)
    ensures !finished ==> FetchFrom(server, page', all', remaining - 1) == FetchFrom(server, page, all, remaining)
  {
    finished, out, page', all' := true, Done(all), page, all;
    var r := server(page);
    if !r.Body? {
      return;
    }
    var items := PageItems(r.data);
    if items.None? {
      return;
    }
    var next := NextPage(page, r.data);
    FetchFromStep(server, page, all, remaining, r.data, items.value, next);
    if next.Stop? {
      out := Done(all + items.value);
    } else if next.Raise? {
      out := Raised(next.error);
    } else {
      finished, page', all' := false, next.page, all + items.value;
    }
  }

  /** `list_prompts` with at most `fuel` page requests, starting at page 1. It
      returns the list that the Python code serialises with `json.dumps`. */
  method ListPrompts(server: Server, fuel: nat) returns (out: Fetched)
    ensures out == Collect(server, JNum(1), fuel)
  {
    var page := JNum(1);
    var all: seq<Json> := [];
    var remaining := fuel;
    FetchFromIsPrependCollect(server, page, all, remaining);
    PrependNothing(Collect(server, page, remaining));
    ghost var result := FetchFrom(server, page, all, remaining);
    while true
      invariant FetchFrom(server, page, all, remaining) == result
      decreases remaining
    {
      if remaining == 0 {
        return OutOfFuel(all);
      }
      var finished;
      finished, out, page, all := Turn(server, page, all, remaining);
      if finished {
        return;
      }
      remaining := remaining - 1;
    }
  }

  /** One step of `FetchFrom` on a page that contributes `items`. */
  lemma FetchFromStep(server: Server, page: Json, acc: seq<Json>, fuel: nat, data: Json, items: seq<Json>, next: Next)
    requires fuel > 0 && server(page) == Body(data)
    requires PageItems(data) == Some(items) && NextPage(page, data) == next
    ensures next.Stop? ==> FetchFrom(server, page, acc, fuel) == Done(acc + items)
    ensures next.Raise? ==> FetchFrom(server, page, acc, fuel) == Raised(next.error)
    ensures next.Goto? ==> FetchFrom(server, page, acc, fuel) == FetchFrom(server, next.page, acc + items, fuel - 1)
  {
  }

  lemma CollectEndsOnFailure(server: Server, page: Json, fuel: nat)
    requires fuel > 0 && (server(page).Failed? || server(page).Unparsable?)
    ensures Collect(server, page, fuel) == Done([])
  {
  }

  /** One step of `Collect` on a page that contributes `items`. */
  lemma CollectStep(server: Server, page: Json, fuel: nat, data: Json, items: seq<Json>, next: Next)
    requires fuel > 0 && server(page) == Body(data)
    requires PageItems(data) == Some(items) && NextPage(page, data) == next
    ensures next.Stop? ==> Collect(server, page, fuel) == Done(items)
    ensures next.Raise? ==> Collect(server, page, fuel) == Raised(next.error)
    ensures next.Goto? ==> Collect(server, page, fuel) == Prepend(items, Collect(server, next.page, fuel - 1))
  {
  }

  lemma PrependNothing(rest: Fetched)
    ensures Prepend([], rest) == rest
  {
    if !rest.Raised? {
      assert [] + rest.items == rest.items;
    }
  }

  lemma PrependTwice(a: seq<Json>, b: seq<Json>, rest: Fetched)
    ensures Prepend(a, Prepend(b, rest)) == Prepend(a + b, rest)
  {
    if !rest.Raised? {
      assert a + (b + rest.items) == (a + b) + rest.items;
    }
  }

  // ---------------------------------------------------------------------------
  // Properties of the decision

  lemma DataIsNotMeta()
    ensures "data" != "meta"
  {
    assert "data"[0] != "meta"[0];
  }

  /** Once `meta` carries a truthy `totalPages`, `hasNextPage`, `nextPage` and a
      top-level `totalPages` are never consulted: two bodies with the same
      `meta` get the same decision. */
  lemma MetaDecidesAlone(page: Json, data1: Json, data2: Json)
    requires data1.JObj? && data2.JObj?
    requires Lookup(data1.fields, "meta") == Lookup(data2.fields, "meta")
    requires var meta := Get(data1.fields, "meta", JObj([]));
      meta.JObj? && Truthy(meta) && Truthy(Get(meta.fields, "totalPages", JNull))
    ensures NextPage(page, data1) == NextPage(page, data2)
    ensures NextPage(page, data1).Stop? || NextPage(page, data1).Raise? || NextPage(page, data1) == Advance(page)
  {
  }

  /** A meta block whose page has reached `totalPages` stops the fetch, even
      when the body also says `hasNextPage: true`. */
  lemma ExhaustedMetaStopsDespiteHasNextPage(n: int, total: int, items: seq<Json>)
    requires total != 0 && n >= total
    ensures NextPage(JNum(n), JObj([("data", JArr(items)),
                                    ("meta", JObj([("page", JNum(n)), ("totalPages", JNum(total))])),
                                    ("hasNextPage", JBool(true))])) == Stop
  {
    DataIsNotMeta();
    var meta := JObj([("page", JNum(n)), ("totalPages", JNum(total))]);
    assert Lookup([("data", JArr(items)), ("meta", meta), ("hasNextPage", JBool(true))], "meta") == Some(meta);
    assert Lookup(meta.fields, "totalPages") == Some(JNum(total));
    assert Lookup(meta.fields, "page") == Some(JNum(n));
  }

  /** With meta pagination the loop advances its own page counter; the page
      number the server reports is only compared with `totalPages`. */
  lemma MetaAdvancesLocalPage(n: int, reported: int, total: int, items: seq<Json>)
    requires total != 0 && reported < total
    ensures NextPage(JNum(n), JObj([("data", JArr(items)),
                                    ("meta", JObj([("page", JNum(reported)), ("totalPages", JNum(total))]))]))
            == Goto(JNum(n + 1))
  {
    DataIsNotMeta();
    var meta := JObj([("page", JNum(reported)), ("totalPages", JNum(total))]);
    assert Lookup([("data", JArr(items)), ("meta", meta)], "meta") == Some(meta);
    assert Lookup(meta.fields, "totalPages") == Some(JNum(total));
    assert Lookup(meta.fields, "page") == Some(JNum(reported));
  }

  /** Without meta pagination a truthy `hasNextPage` wins over `nextPage` and
      `totalPages`. */
  lemma HasNextPageComesFirst(n: int, data: Json)
    requires data.JObj? && !Truthy(Get(data.fields, "meta", JObj([])))
    requires Truthy(Get(data.fields, "hasNextPage", JNull))
    ensures NextPage(JNum(n), data) == Goto(JNum(n + 1))
  {
  }

  /** Then a truthy `nextPage` is followed as it is, even backwards. */
  lemma NextPageIsFollowed(page: Json, data: Json)
    requires data.JObj? && !Truthy(Get(data.fields, "meta", JObj([])))
    requires !Truthy(Get(data.fields, "hasNextPage", JNull))
    requires Truthy(Get(data.fields, "nextPage", JNull))
    ensures NextPage(page, data) == Goto(Get(data.fields, "nextPage", JNull))
  {
  }

  /** Last, a top-level `totalPages` continues exactly while the page is below it. */
  lemma TopLevelTotalPages(n: int, total: int, data: Json)
    requires data.JObj? && !Truthy(Get(data.fields, "meta", JObj([])))
    requires !Truthy(Get(data.fields, "hasNextPage", JNull))
    requires !Truthy(Get(data.fields, "nextPage", JNull))
    requires Get(data.fields, "totalPages", JNull) == JNum(total) && total != 0
    ensures NextPage(JNum(n), data) == if n < total then Goto(JNum(n + 1)) else Stop
  {
  }

  // ---------------------------------------------------------------------------
  // Properties of the fetch

  /** A failed or unparsable page ends the fetch with exactly the items
      gathered before it, and no exception. */
  lemma FailureKeepsEarlierItems(server: Server, page: Json, acc: seq<Json>, fuel: nat)
    requires fuel > 0 && (server(page).Failed? || server(page).Unparsable?)
    ensures FetchFrom(server, page, acc, fuel) == Done(acc)
  {
  }

  /** Whatever happens later, the items already gathered stay in front, in order. */
  lemma {:induction false} EarlierItemsStayInFront(server: Server, page: Json, acc: seq<Json>, fuel: nat)
    ensures var r := FetchFrom(server, page, acc, fuel);
      !r.Raised? ==> |acc| <= |r.items| && r.items[..|acc|] == acc
  {
    FetchFromIsPrependCollect(server, page, acc, fuel);
    var c := Collect(server, page, fuel);
    if !c.Raised? {
      assert (acc + c.items)[..|acc|] == acc;
    }
  }

  /** All items of `pages`, in order. */
  function Flatten(pages: seq<seq<Json>>): (r: seq<Json>)
    ensures |pages| == 1 ==> r == pages[0]
  {
    if |pages| == 0 then [] else pages[0] + Flatten(pages[1..])
  }

  /** Page `k` (from 1) of a server using the meta convention over `pages`. */
  function MetaPage(pages: seq<seq<Json>>, k: nat): Json
    requires 1 <= k <= |pages|
  {
    JObj([("data", JArr(pages[k - 1])),
          ("meta", JObj([("page", JNum(k)), ("totalPages", JNum(|pages|))]))])
  }

  /** The server answers pages 1 to `served` with the meta convention. */
  ghost predicate ServesMetaPages(server: Server, pages: seq<seq<Json>>, served: nat)
    requires served <= |pages|
  {
    served == 0 ||
    (server(JNum(served)) == Body(MetaPage(pages, served)) && ServesMetaPages(server, pages, served - 1))
  }

  lemma {:induction false} ServedPage(server: Server, pages: seq<seq<Json>>, served: nat, k: nat)
    requires served <= |pages| && ServesMetaPages(server, pages, served)
    requires 1 <= k <= served
    ensures server(JNum(k)) == Body(MetaPage(pages, k))
    decreases served
  {
    if k < served {
      ServedPage(server, pages, served - 1, k);
    }
  }

  lemma MetaPageDecision(pages: seq<seq<Json>>, k: nat)
    requires 1 <= k <= |pages|
    ensures PageItems(MetaPage(pages, k)) == if |pages[k - 1]| > 0 then Some(pages[k - 1]) else None
    ensures NextPage(JNum(k), MetaPage(pages, k)) == if k < |pages| then Goto(JNum(k + 1)) else Stop
  {
    DataIsNotMeta();
    var fields := MetaPage(pages, k).fields;
    var meta := JObj([("page", JNum(k)), ("totalPages", JNum(|pages|))]);
    assert Lookup(fields, "data") == Some(JArr(pages[k - 1]));
    assert Lookup(fields, "meta") == Some(meta);
    assert Lookup(meta.fields, "totalPages") == Some(JNum(|pages|));
    assert Lookup(meta.fields, "page") == Some(JNum(k));
  }

  /** One meta page followed by a fetch of the rest that ends with `rest`. */
  lemma MetaStep(server: Server, pages: seq<seq<Json>>, k: nat, fuel: nat, rest: seq<Json>)
    requires 1 <= k < |pages| && fuel > 0 && |pages[k - 1]| > 0
    requires server(JNum(k)) == Body(MetaPage(pages, k))
    requires Collect(server, JNum(k + 1), fuel - 1) == Done(rest)
    ensures Collect(server, JNum(k), fuel) == Done(pages[k - 1] + rest)
  {
    MetaPageDecision(pages, k);
    CollectStep(server, JNum(k), fuel, MetaPage(pages, k), pages[k - 1], Goto(JNum(k + 1)));
  }

  /** Fetching from page `j + 1` returns the items of pages `j + 1` to `served`. */
  lemma {:induction false} MetaRun(server: Server, pages: seq<seq<Json>>, served: nat, j: nat, fuel: nat)
    requires served <= |pages| && j < |pages| && j <= served
    requires forall i :: 0 <= i < |pages| ==> |pages[i]| > 0
    requires ServesMetaPages(server, pages, served)
    requires served < |pages| ==> server(JNum(served + 1)).Failed? || server(JNum(served + 1)).Unparsable?
    requires fuel + j >= (if served < |pages| then served + 1 else |pages|)
    ensures Collect(server, JNum(j + 1), fuel) == Done(Flatten(pages[j..served]))
    decreases |pages| - j
  {
    var run := pages[j..served];
    if j == served {
      assert run == [];
      CollectEndsOnFailure(server, JNum(j + 1), fuel);
    } else {
      ServedPage(server, pages, served, j + 1);
      assert Flatten(run) == pages[j] + Flatten(pages[j + 1..served]) by {
        assert run[0] == pages[j] && run[1..] == pages[j + 1..served];
      }
      if j + 1 == |pages| {
        assert pages[j + 1..served] == [];
        MetaPageDecision(pages, j + 1);
        CollectStep(server, JNum(j + 1), fuel, MetaPage(pages, j + 1), pages[j], Stop);
        assert pages[j] + [] == pages[j];
      } else {
        MetaRun(server, pages, served, j + 1, fuel - 1);
        MetaStep(server, pages, j + 1, fuel, Flatten(pages[j + 1..served]));
      }
    }
  }

  /** With the meta convention the fetch requests exactly pages 1 to
      `totalPages`, whatever the server would answer beyond them, and returns
      every page's items in page order. */
  lemma MetaPaginationFetchesEveryPage(server: Server, pages: seq<seq<Json>>, fuel: nat)
    requires |pages| > 0 && forall i :: 0 <= i < |pages| ==> |pages[i]| > 0
    requires ServesMetaPages(server, pages, |pages|)
    requires fuel >= |pages|
    ensures Collect(server, JNum(1), fuel) == Done(Flatten(pages))
  {
    MetaRun(server, pages, |pages|, 0, fuel);
    assert pages[0..|pages|] == pages;
  }

  /** If page `served + 1` fails or does not parse, the result is exactly the
      items of pages 1 to `served`. */
  lemma MetaPaginationKeepsPagesBeforeFailure(server: Server, pages: seq<seq<Json>>, served: nat, fuel: nat)
    requires served < |pages| && forall i :: 0 <= i < |pages| ==> |pages[i]| > 0
    requires ServesMetaPages(server, pages, served)
    requires server(JNum(served + 1)).Failed? || server(JNum(served + 1)).Unparsable?
    requires fuel > served
    ensures Collect(server, JNum(1), fuel) == Done(Flatten(pages[..served]))
  {
    MetaRun(server, pages, served, 0, fuel);
    assert pages[0..served] == pages[..served];
  }

  function Repeat(x: Json, n: nat): (r: seq<Json>)
    ensures |r| == n && forall i :: 0 <= i < n ==> r[i] == x
  {
    if n == 0 then [] else [x] + Repeat(x, n - 1)
  }

  /** A server whose `nextPage` points at the page itself is fetched again and
      again: every bound runs out, so the unbounded Python loop never ends. */
  lemma {:induction false} SelfReferringNextPageNeverEnds(server: Server, page: Json, item: Json, fuel: nat)
    requires Truthy(page) && Truthy(item)
    requires server(page) == Body(JObj([("data", JArr([item])), ("nextPage", page)]))
    ensures Collect(server, page, fuel) == OutOfFuel(Repeat(item, fuel))
  {
    if fuel > 0 {
      SelfReferringNextPageNeverEnds(server, page, item, fuel - 1);
      var data := JObj([("data", JArr([item])), ("nextPage", page)]);
      assert PageItems(data) == Some([item]);
      DataIsNotMeta();
      assert Lookup(data.fields, "meta") == None;
      assert Lookup(data.fields, "hasNextPage") == None;
      assert Lookup(data.fields, "nextPage") == Some(page);
      assert NextPage(page, data) == Goto(page);
    }
  }
}
