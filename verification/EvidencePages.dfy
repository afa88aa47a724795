/** Resources of the evidence projections (packages/ui/src/projection.ts). */
module Resources {

  datatype Resource<+T> =
    | Unavailable(reason: string)
    | Loading
    | Partial(value: T, reason: string)
    | Ready(value: T)
    | Incompatible(reason: string)
    | Errored(reason: string)
    | Unsupported(reason: string)
}

/** Following a paginated evidence endpoint to its end (packages/react/src/useOwnwareAgent.ts). */
module EvidencePages {
  import opened Common
  import opened Resources

  datatype PageReply<T> = PageThrows | Page(items: seq<T>, next: Option<string>)

  /** Any server: the reply may depend on the cursor and on how often it was called. */
  type Server<!T> = (nat, Option<string>) -> PageReply<T>

  const MAX_PAGES := 1000

  /** The page at position `i` was fetched and names the next cursor. */
  ghost predicate Follows<T>(server: Server<T>, calls: seq<Option<string>>, i: nat)
    requires i + 1 < |calls|
  {
    server(i, calls[i]).Page? && calls[i + 1].Some? && calls[i + 1] == server(i, calls[i]).next
  }

  ghost predicate IsChain<T>(server: Server<T>, calls: seq<Option<string>>) {
    (calls != [] ==> calls[0] == None) && forall i :: 0 <= i < |calls| - 1 ==> Follows(server, calls, i)
  }

  /** The items of the first `n` fetched pages, in order. */
  ghost function Fetched<T>(server: Server<T>, calls: seq<Option<string>>, n: nat): seq<T>
    requires n <= |calls|
  {
    if n == 0 then []
    else Fetched(server, calls, n - 1)
         + (if server(n - 1, calls[n - 1]).Page? then server(n - 1, calls[n - 1]).items else [])
  }

  lemma {:induction false} FetchedPrefix<T>(server: Server<T>, calls: seq<Option<string>>, c: Option<string>, n: nat)
    requires n <= |calls|
    ensures Fetched(server, calls + [c], n) == Fetched(server, calls, n)
  {
    if n > 0 { FetchedPrefix(server, calls, c, n - 1); }
  }

  /** What a finished chain of calls must report. */
  ghost function Verdict<T>(server: Server<T>, calls: seq<Option<string>>, errorReason: string): Resource<seq<T>>
    requires calls != []
  {
    var last, items := server(|calls| - 1, calls[|calls| - 1]), Fetched(server, calls, |calls|);
    if last.PageThrows? then (if items != [] then Partial(items, errorReason) else Errored(errorReason))
    else if last.next.None? then Ready(items)
    else if last.next in calls then Partial(items, "pagination_cursor_cycle")
    else Partial(items, "pagination_page_limit")
  }

  /** The chain stopped for a reason: null cursor, failure, repeated cursor, or the page limit. */
  ghost predicate IsFinished<T>(server: Server<T>, calls: seq<Option<string>>)
    requires calls != []
  {
    var last := server(|calls| - 1, calls[|calls| - 1]);
    last.PageThrows? || last.next.None? || last.next in calls || |calls| == MAX_PAGES
  }

  /** A fetched page extends the chain by its cursor. */
  lemma ChainSnoc<T>(server: Server<T>, calls: seq<Option<string>>, cursor: Option<string>)
    requires IsChain(server, calls) && Distinct(calls) && cursor !in calls
    requires calls == [] ==> cursor.None?
    requires calls != [] ==> Follows(server, calls + [cursor], |calls| - 1)
    ensures IsChain(server, calls + [cursor]) && Distinct(calls + [cursor])
    ensures Fetched(server, calls + [cursor], |calls|) == Fetched(server, calls, |calls|)
  {
    var all := calls + [cursor];
    FetchedPrefix(server, calls, cursor, |calls|);
    forall i | 0 <= i < |all| - 1 ensures Follows(server, all, i) {
      if i < |calls| - 1 { assert Follows(server, calls, i); }
    }
  }

  /** `loadAllPages`: at most 1000 calls over distinct cursors, complete only at a null cursor. */
  method LoadAllPages<T>(page: Option<Server<T>>, errorReason: string)
    returns (r: Resource<seq<T>>, ghost calls: seq<Option<string>>)
    ensures page.None? ==> r == Unavailable("method_unavailable") && calls == []
    ensures page.Some? ==>
              && 0 < |calls| <= MAX_PAGES && IsChain(page.value, calls) && Distinct(calls)
              && IsFinished(page.value, calls) && r == Verdict(page.value, calls, errorReason)
  {
    calls := [];
    if page.None? { return Unavailable("method_unavailable"), []; }
    var server := page.value;
    var items: seq<T> := [];
    var seen: set<string> := {};
    var cursor: Option<string> := None;
    var pageCount := 0;
    while pageCount < MAX_PAGES
      invariant pageCount == |calls| <= MAX_PAGES
      invariant IsChain(server, calls) && Distinct(calls) && items == Fetched(server, calls, |calls|)
      invariant calls == [] ==> cursor.None? && seen == {}
      invariant calls != [] ==>
                  && cursor.Some? && cursor.value in seen && cursor !in calls
                  && Follows(server, calls + [cursor], |calls| - 1)
      invariant forall c :: c in seen <==> Some(c) in calls || Some(c) == cursor
    {
      ChainSnoc(server, calls, cursor);
      calls := calls + [cursor];
      var result := server(pageCount, cursor);
      if result.PageThrows? {
        assert items == items + [];
        return if |items| > 0 then Partial(items, errorReason) else Errored(errorReason), calls;
      }
      items := items + result.items;
      if result.next.None? { return Ready(items), calls; }
      if result.next.value in seen { return Partial(items, "pagination_cursor_cycle"), calls; }
      seen := seen + {result.next.value};
      cursor := result.next;
      pageCount := pageCount + 1;
    }
    r := Partial(items, "pagination_page_limit");
  }
}
