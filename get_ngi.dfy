/** The GetNGI query of the programmatic interface: cursor paging over NGIs
    ordered by id, a page size, and the choice of rendering. The query is
    modelled by the part `createQuery` decides (id filter, direction, limit
    and the cursor bind) and by the ids such a query selects. */
module GetNgiQuery {
  import opened Wrappers
  import opened Seqs
  import opened Errors

  datatype Direction = Asc | Desc

  /** The cursor condition on `n.id`. */
  datatype IdFilter = AnyId | IdAbove(cursor: int) | IdBelow(cursor: int)

  /** What `createQuery` puts into the query builder: the cursor condition,
      the order by id, the limit, and the binds as (position, value). */
  datatype QueryPlan = QueryPlan(filter: IdFilter, direction: Direction, limit: Option<int>, binds: seq<(int, int)>)

  /** The result of `getValidCursorPagingParamsHelper` on the parameters. */
  datatype CursorParams = CursorParams(prevCursor: Option<int>, nextCursor: Option<int>, isPaging: bool)

  /** The result of `cursorPagingExecutorHelper`: the NGI ids selected, their
      number, and the first and last cursor ids. */
  datatype PageResults = PageResults(resultSet: seq<int>, resultSetSize: int,
                                     firstCursorId: Option<int>, lastCursorId: Option<int>)

  /** `getPostExecutionPageInfo()`. */
  datatype PageInfo = PageInfo(prevCursor: Option<int>, nextCursor: Option<int>, count: int)

  /** A PHP argument whose type the setters check. */
  datatype PhpValue = IntValue(i: int) | BoolValue(b: bool) | StringValue(s: string) | NullValue

  /** The renderings `getRenderingOutput` produces. */
  datatype Rendering = GocdbXml | Glue2Xml

  /* ---------------------------------------------------------------------- */
  /* The paging decision of createQuery                                     */
  /* ---------------------------------------------------------------------- */

  /** The fields `createQuery` sets, and the query it builds. */
  datatype Paging = Paging(isPaging: bool, nextCursor: Option<int>, prevCursor: Option<int>, plan: QueryPlan)

  /** Lines 99-148 of `createQuery`: default paging forces paging; when
      paging, a next cursor selects the ids above it in ascending order and
      clears the previous cursor, else a previous cursor selects the ids below
      it in descending order and clears the next cursor, else both are
      cleared; only a paging query is limited to the page size. */
  function PlanPaging(cursor: CursorParams, defaultPaging: bool, maxResults: int): (p: Paging)
    ensures p.isPaging <==> cursor.isPaging || defaultPaging
    ensures p.isPaging && cursor.nextCursor.Some? ==>
              && p.plan.filter == IdAbove(cursor.nextCursor.value) && p.plan.direction == Asc
              && p.nextCursor == cursor.nextCursor && p.prevCursor.None?
    ensures p.isPaging && cursor.nextCursor.None? && cursor.prevCursor.Some? ==>
              && p.plan.filter == IdBelow(cursor.prevCursor.value) && p.plan.direction == Desc
              && p.prevCursor == cursor.prevCursor && p.nextCursor.None?
    ensures p.isPaging && cursor.nextCursor.None? && cursor.prevCursor.None? ==>
              p.plan.filter == AnyId && p.plan.direction == Asc && p.nextCursor.None? && p.prevCursor.None?
    ensures !p.isPaging ==>
              && p.plan.filter == AnyId && p.plan.direction == Asc
              && p.nextCursor == cursor.nextCursor && p.prevCursor == cursor.prevCursor
    ensures p.plan.limit == (if p.isPaging then Some(maxResults) else None)
    ensures p.plan.binds == match p.plan.filter
                            case AnyId => []
                            case IdAbove(c) => [(0, c)]
                            case IdBelow(c) => [(0, c)]
  {
    var isPaging := cursor.isPaging || defaultPaging;
    if !isPaging then
      Paging(false, cursor.nextCursor, cursor.prevCursor, QueryPlan(AnyId, Asc, None, []))
    else if cursor.nextCursor.Some? then
      var c := cursor.nextCursor.value;
      Paging(true, cursor.nextCursor, None, QueryPlan(IdAbove(c), Asc, Some(maxResults), [(0, c)]))
    else if cursor.prevCursor.Some? then
      var c := cursor.prevCursor.value;
      Paging(true, None, cursor.prevCursor, QueryPlan(IdBelow(c), Desc, Some(maxResults), [(0, c)]))
    else
      Paging(true, None, None, QueryPlan(AnyId, Asc, Some(maxResults), []))
  }

  /* ---------------------------------------------------------------------- */
  /* What a query selects                                                   */
  /* ---------------------------------------------------------------------- */

  function AdmittedBy(f: IdFilter): int -> bool {
    (id: int) => match f
                 case AnyId => true
                 case IdAbove(c) => id > c
                 case IdBelow(c) => id < c
  }

  function Less(): (int, int) -> bool {
    (a: int, b: int) => a < b
  }

  function Greater(): (int, int) -> bool {
    (a: int, b: int) => a > b
  }

  function Reverse(s: seq<int>): (r: seq<int>)
    ensures |r| == |s|
    ensures forall i | 0 <= i < |s| :: r[i] == s[|s| - 1 - i]
  {
    if s == [] then [] else Reverse(s[1..]) + [s[0]]
  }

  /** Reversing an ascending sequence gives a descending one. */
  lemma ReverseDescends(s: seq<int>)
    requires Pairwise(s, Less())
    ensures Pairwise(Reverse(s), Greater())
  {
    var r := Reverse(s);
    forall i, j | 0 <= i < j < |r| ensures Greater()(r[i], r[j]) {
      assert Less()(s[|s| - 1 - j], s[|s| - 1 - i]);
    }
  }

  /** The admitted ids in the query's order. */
  function InOrder(direction: Direction, admitted: seq<int>): (o: seq<int>)
    ensures |o| == |admitted|
    ensures forall id | id in o :: id in admitted
    ensures direction == Asc ==> o == admitted
    ensures direction == Desc ==> o == Reverse(admitted)
  {
    if direction == Asc then admitted
    else
      var o := Reverse(admitted);
      assert forall id | id in o :: id in admitted by {
        forall id | id in o ensures id in admitted {
          var i :| 0 <= i < |o| && o[i] == id;
          assert admitted[|admitted| - 1 - i] == id;
        }
      }
      o
  }

  /** At most `limit` of the ids, from the front; a missing or negative
      limit takes them all. */
  function Limited(o: seq<int>, limit: Option<int>): (r: seq<int>)
    ensures |r| == (if limit.Some? && 0 <= limit.value < |o| then limit.value else |o|)
    ensures forall i | 0 <= i < |r| :: r[i] == o[i]
    ensures forall id | id in r :: id in o
  {
    if limit.Some? && 0 <= limit.value < |o| then o[..limit.value] else o
  }

  /** The ids a query selects from the NGI ids, given in ascending order:
      those the cursor condition admits, in the query's order, at most the
      limit of them. */
  function Select(plan: QueryPlan, ids: seq<int>): (r: seq<int>)
    ensures forall id | id in r :: id in ids && AdmittedBy(plan.filter)(id)
    ensures plan.limit.Some? && plan.limit.value >= 0 ==> |r| <= plan.limit.value
    ensures plan.limit.None? ==> |r| == |Filter(ids, AdmittedBy(plan.filter))|
    // The first min(limit, n) of the n admitted ids, taken from the low end
    // when ascending and from the high end when descending.
    ensures var admitted := Filter(ids, AdmittedBy(plan.filter));
            |r| == (if plan.limit.Some? && 0 <= plan.limit.value < |admitted| then plan.limit.value else |admitted|)
    ensures var admitted := Filter(ids, AdmittedBy(plan.filter));
            plan.direction == Asc ==> forall i | 0 <= i < |r| :: r[i] == admitted[i]
    ensures var admitted := Filter(ids, AdmittedBy(plan.filter));
            plan.direction == Desc ==> forall i | 0 <= i < |r| :: r[i] == admitted[|admitted| - 1 - i]
  {
    Limited(InOrder(plan.direction, Filter(ids, AdmittedBy(plan.filter))), plan.limit)
  }

  /** Paging forward from a cursor gives at most a page of ids, all above the
      cursor, in ascending order. */
  lemma NextPageFollowsCursor(cursor: CursorParams, defaultPaging: bool, maxResults: int, ids: seq<int>)
    requires Pairwise(ids, Less()) && maxResults >= 0
    requires (cursor.isPaging || defaultPaging) && cursor.nextCursor.Some?
    ensures var page := Select(PlanPaging(cursor, defaultPaging, maxResults).plan, ids);
            && |page| <= maxResults
            && (forall id | id in page :: id in ids && id > cursor.nextCursor.value)
            && Pairwise(page, Less())
  {
    var plan := PlanPaging(cursor, defaultPaging, maxResults).plan;
    FilterPairwise(ids, AdmittedBy(plan.filter), Less());
  }

  /** Paging back from a cursor gives at most a page of ids, all below the
      cursor, in descending order. */
  lemma PrevPagePrecedesCursor(cursor: CursorParams, defaultPaging: bool, maxResults: int, ids: seq<int>)
    requires Pairwise(ids, Less()) && maxResults >= 0
    requires (cursor.isPaging || defaultPaging) && cursor.nextCursor.None? && cursor.prevCursor.Some?
    ensures var page := Select(PlanPaging(cursor, defaultPaging, maxResults).plan, ids);
            && |page| <= maxResults
            && (forall id | id in page :: id in ids && id < cursor.prevCursor.value)
            && Pairwise(page, Greater())
  {
    var plan := PlanPaging(cursor, defaultPaging, maxResults).plan;
    FilterPairwise(ids, AdmittedBy(plan.filter), Less());
    ReverseDescends(Filter(ids, AdmittedBy(plan.filter)));
  }

  /** A query that does not page returns every NGI, in ascending order. */
  lemma UnpagedSelectsAll(cursor: CursorParams, ids: seq<int>)
    requires Pairwise(ids, Less()) && !cursor.isPaging
    ensures Select(PlanPaging(cursor, false, 0).plan, ids) == ids
  {
    var plan := PlanPaging(cursor, false, 0).plan;
    FilterAll(ids, AdmittedBy(plan.filter));
  }

  /* ---------------------------------------------------------------------- */
  /* Renderings                                                             */
  /* ---------------------------------------------------------------------- */

  /** `getSupportedRenderings()`. */
  function SupportedRenderings(): seq<string> {
    ["GOCDB_XML", "GLUE2_XML"]
  }

  /** The condition of `setSelectedRendering` as written:
      `$renderingStyle != 'GOCDB_XML' || $renderingStyle != 'GLUE2_XML'`. */
  predicate RenderingGuard(renderingStyle: string) {
    renderingStyle != "GOCDB_XML" || renderingStyle != "GLUE2_XML"
  }

  /** The guard as written rejects even the two renderings its comment and
      `getSupportedRenderings` name as supported. */
  lemma RenderingGuardRejectsSupported()
    ensures forall s | s in SupportedRenderings() :: RenderingGuard(s)
  {
    assert SupportedRenderings()[0] != SupportedRenderings()[1];
  }

  /* ---------------------------------------------------------------------- */
  /* The query object                                                       */
  /* ---------------------------------------------------------------------- */

  class GetNgi {
    var selectedRenderingStyle: string
    var maxResults: int
    var defaultPaging: bool
    var isPaging: bool
    var nextCursor: Option<int>
    var prevCursor: Option<int>
    var direction: Option<Direction>
    var query: Option<QueryPlan>
    var ngis: seq<int>
    var resultSetSize: int
    var lastCursorId: Option<int>
    var firstCursorId: Option<int>

    /** The selected rendering is one of the supported ones. */
    predicate Valid()
      reads this
    {
      selectedRenderingStyle in SupportedRenderings()
    }

    /** A new query: GOCDB_XML rendering, pages of 500, no default paging,
        no cursors and no results yet. */
    constructor ()
      ensures Valid()
      ensures selectedRenderingStyle == "GOCDB_XML" && maxResults == 500 && !defaultPaging && !isPaging
      ensures nextCursor.None? && prevCursor.None? && direction.None? && query.None?
      ensures resultSetSize == 0 && lastCursorId.None? && firstCursorId.None?
    {
      selectedRenderingStyle := "GOCDB_XML";
      maxResults := 500;
      defaultPaging := false;
      isPaging := false;
      nextCursor := None;
      prevCursor := None;
      direction := None;
      query := None;
      ngis := [];
      resultSetSize := 0;
      lastCursorId := None;
      firstCursorId := None;
    }

    function GetDefaultPaging(): bool
      reads this
    {
      defaultPaging
    }

    function GetPageSize(): int
      reads this
    {
      maxResults
    }

    /** `setDefaultPaging`: anything but a boolean is refused. */
    method SetDefaultPaging(pageTrueOrFalse: PhpValue) returns (r: Outcome<Error>)
      modifies this
      ensures r.Pass? <==> pageTrueOrFalse.BoolValue?
      ensures r.Fail? ==> r.error == InvalidArgument && defaultPaging == old(defaultPaging)
      ensures r.Pass? ==> GetDefaultPaging() == pageTrueOrFalse.b
      ensures maxResults == old(maxResults) && selectedRenderingStyle == old(selectedRenderingStyle)
    {
      if !pageTrueOrFalse.BoolValue? {
        return Fail(InvalidArgument);
      }
      defaultPaging := pageTrueOrFalse.b;
      r := Pass;
    }

    /** `setPageSize`: anything but an integer is refused. */
    method SetPageSize(pageSize: PhpValue) returns (r: Outcome<Error>)
      modifies this
      ensures r.Pass? <==> pageSize.IntValue?
      ensures r.Fail? ==> r.error == InvalidArgument && maxResults == old(maxResults)
      ensures r.Pass? ==> GetPageSize() == pageSize.i
      ensures defaultPaging == old(defaultPaging) && selectedRenderingStyle == old(selectedRenderingStyle)
    {
      if !pageSize.IntValue? {
        return Fail(InvalidArgument);
      }
      maxResults := pageSize.i;
      r := Pass;
    }

    /** `createQuery`, for the cursor part of the query: the fields and the
        query are those the paging decision gives. */
    method CreateQuery(cursorParams: CursorParams) returns (plan: QueryPlan)
      modifies this
      ensures var p := PlanPaging(cursorParams, old(defaultPaging), old(maxResults));
              && plan == p.plan && query == Some(p.plan)
              && isPaging == p.isPaging && nextCursor == p.nextCursor && prevCursor == p.prevCursor
              && direction == Some(p.plan.direction)
      ensures maxResults == old(maxResults) && defaultPaging == old(defaultPaging)
      ensures selectedRenderingStyle == old(selectedRenderingStyle)
    {
      var binds: seq<(int, int)> := [];
      var bc := -1;

      prevCursor := cursorParams.prevCursor;
      nextCursor := cursorParams.nextCursor;
      isPaging := cursorParams.isPaging;
      if defaultPaging {
        isPaging := true;
      }

      var filter := AnyId;
      var limit: Option<int> := None;
      direction := Some(Asc);
      if isPaging {
        if nextCursor.Some? {
          bc := bc + 1;
          filter := IdAbove(nextCursor.value);
          binds := binds + [(bc, nextCursor.value)];
          direction := Some(Asc);
          prevCursor := None;
        } else if prevCursor.Some? {
          bc := bc + 1;
          filter := IdBelow(prevCursor.value);
          binds := binds + [(bc, prevCursor.value)];
          direction := Some(Desc);
          nextCursor := None;
        } else {
          direction := Some(Asc);
          nextCursor := None;
          prevCursor := None;
        }
        limit := Some(maxResults);
      }
      plan := QueryPlan(filter, direction.value, limit, binds);
      query := Some(plan);
    }

    /** `executeQuery`: the helper's results are kept, and the page
        information reports them. */
    method ExecuteQuery(results: PageResults) returns (selected: seq<int>)
      modifies this
      ensures selected == results.resultSet
      ensures GetPostExecutionPageInfo() ==
                PageInfo(results.firstCursorId, results.lastCursorId, results.resultSetSize)
      ensures maxResults == old(maxResults) && defaultPaging == old(defaultPaging)
      ensures isPaging == old(isPaging) && query == old(query)
      ensures selectedRenderingStyle == old(selectedRenderingStyle)
    {
      ngis := results.resultSet;
      resultSetSize := results.resultSetSize;
      firstCursorId := results.firstCursorId;
      lastCursorId := results.lastCursorId;
      selected := ngis;
    }

    /** `getPostExecutionPageInfo()`: the previous cursor is the first id,
        the next cursor the last id, the count the result size. */
    function GetPostExecutionPageInfo(): PageInfo
      reads this
    {
      PageInfo(firstCursorId, lastCursorId, resultSetSize)
    }

    /** `setSelectedRendering` as written: its condition holds for every
        string, so it always throws and never changes the rendering. */
    method SetSelectedRendering(renderingStyle: string) returns (r: Outcome<Error>)
      modifies this
      ensures r == Fail(UnsupportedRendering)
      ensures selectedRenderingStyle == old(selectedRenderingStyle)
    {
      if RenderingGuard(renderingStyle) {
        return Fail(UnsupportedRendering);
      }
      // The assignment the source makes here is unreachable.
      assert false;
    }

    /** `setSelectedRendering` as its comment describes it: a supported
        rendering is selected, any other is refused. */
    method SetSelectedRenderingCorrected(renderingStyle: string) returns (r: Outcome<Error>)
      requires Valid()
      modifies this
      ensures Valid()
      ensures r.Pass? <==> renderingStyle in SupportedRenderings()
      ensures r.Fail? ==> r.error == UnsupportedRendering && selectedRenderingStyle == old(selectedRenderingStyle)
      ensures r.Pass? ==> selectedRenderingStyle == renderingStyle
      ensures maxResults == old(maxResults) && defaultPaging == old(defaultPaging)
    {
      if renderingStyle != "GOCDB_XML" && renderingStyle != "GLUE2_XML" {
        return Fail(UnsupportedRendering);
      }
      selectedRenderingStyle := renderingStyle;
      r := Pass;
    }

    /** The dispatch of `getRenderingOutput`: the rendering by the selected
        style, and the LogicException for any other style. */
    function RenderingOutput(): (r: Result<Rendering, Error>)
      reads this
      ensures r.Success? <==> selectedRenderingStyle in SupportedRenderings()
      ensures r.Failure? ==> r.error == InvalidRenderingState
      ensures r == Success(GocdbXml) <==> selectedRenderingStyle == "GOCDB_XML"
      ensures r == Success(Glue2Xml) <==> selectedRenderingStyle == "GLUE2_XML"
    {
      if selectedRenderingStyle == "GOCDB_XML" then Success(GocdbXml)
      else if selectedRenderingStyle == "GLUE2_XML" then Success(Glue2Xml)
      else Failure(InvalidRenderingState)
    }
  }

  /** While the selected rendering is a supported one, which the constructor
      and the corrected setter keep, rendering never reaches the
      LogicException. */
  lemma ValidRenderingRenders(q: GetNgi)
    requires q.Valid()
    ensures q.RenderingOutput().Success?
  {
  }
}
