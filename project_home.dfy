/**
 * `ProjectHomeComponent`: the page window over the service's project list
 * (`projects.slice(first, first + rows)`), moved by paginator events, and the
 * rule that initialisation requests a load only when the list is empty.
 */
module ProjectHome {
  import opened JsValues
  import opened Projects

  /** `Array.prototype.slice`'s reading of a bound: negative counts from the end; both clamp to `[0, len]`. */
  function SliceBound(i: int, len: nat): (b: nat)
    ensures b <= len
    ensures 0 <= i ==> b == (if i < len then i else len)
    ensures i < 0 ==> b == (if len + i > 0 then len + i else 0)
  {
    if i < 0 then (if len + i > 0 then len + i else 0)
    else if i < len then i else len
  }

  /** `s.slice(start, end)`: the contiguous run between the two read bounds, empty when they cross. */
  function Slice<T>(s: seq<T>, start: int, end: int): (r: seq<T>)
    ensures var lo, hi := SliceBound(start, |s|), SliceBound(end, |s|);
      |r| == (if lo < hi then hi - lo else 0) && forall i | 0 <= i < |r| :: r[i] == s[lo + i]
  {
    var lo, hi := SliceBound(start, |s|), SliceBound(end, |s|);
    if lo < hi then s[lo..hi] else []
  }

  /** The page shown for window start `first` and page size `rows`: a run of the list, never longer than the list. */
  function Window(ps: seq<Project>, first: int, rows: int): (w: seq<Project>)
    ensures |w| <= |ps| && SliceBound(first, |ps|) + |w| <= |ps|
    ensures forall i | 0 <= i < |w| :: w[i] == ps[SliceBound(first, |ps|) + i]
  {
    Slice(ps, first, first + rows)
  }

  /** What the paginator reports on a page change. */
  datatype PageEvent = PageEvent(first: int, rows: int)

  class ProjectHomeComponent {
    const service: ProjectsService
    var paginatedProjects: seq<Project>
    var first: int
    var rows: int

    /** The window starts at 0 with 9 rows; the page is empty until it is first computed. */
    constructor (service: ProjectsService)
      ensures this.service == service
      ensures first == 0 && rows == 9 && paginatedProjects == []
    {
      this.service := service;
      paginatedProjects := [];
      first := 0;
      rows := 9;
    }

    /** `ngOnInit`: a load is requested only when the project list is empty. */
    method NgOnInit()
      modifies service`loading, service`pendingLoads
      ensures old(service.projects) == [] ==> service.loading && service.pendingLoads == old(service.pendingLoads) + 1
      ensures old(service.projects) != [] ==> service.loading == old(service.loading) && service.pendingLoads == old(service.pendingLoads)
    {
      if |service.projects| == 0 {
        service.LoadProjects();
      }
    }

    /**
     * `updatePaginatedProjects`: recomputes the page from the current list and
     * window. In the application an `effect` re-runs it after each change of
     * the project list; here the caller runs it after such a change.
     */
    method UpdatePaginatedProjects()
      modifies this`paginatedProjects
      ensures paginatedProjects == Window(service.projects, first, rows)
    {
      paginatedProjects := Slice(service.projects, first, first + rows);
    }

    /** `onPageChange`: adopts the event's window and recomputes the page. */
    method OnPageChange(event: PageEvent)
      modifies this`first, this`rows, this`paginatedProjects
      ensures first == event.first && rows == event.rows
      ensures paginatedProjects == Window(service.projects, event.first, event.rows)
    {
      first := event.first;
      rows := event.rows;
      UpdatePaginatedProjects();
    }
  }

  // ---------------------------------------------------------------------------
  // Properties
  // ---------------------------------------------------------------------------

  /**
   * For a non-negative start, the page is the contiguous run of projects from
   * `first` up to `first + rows` or the end of the list, whichever comes first;
   * it is never longer than `rows` and is empty once `first` is past the end.
   */
  lemma WindowIsClampedRun(ps: seq<Project>, first: int, rows: int)
    requires 0 <= first && 0 <= rows
    ensures var w := Window(ps, first, rows);
      && |w| <= rows
      && (first >= |ps| ==> w == [])
      && (forall i | 0 <= i < |w| :: first + i < |ps| && w[i] == ps[first + i])
      && (first + rows <= |ps| ==> w == ps[first..first + rows])
      && (first < |ps| <= first + rows ==> w == ps[first..])
  {
  }

  /** Consecutive pages neither overlap nor leave gaps: two adjacent windows make up the window that spans both. */
  lemma AdjacentWindows(ps: seq<Project>, first: int, r1: int, r2: int)
    requires 0 <= first && 0 <= r1 && 0 <= r2
    ensures Window(ps, first, r1) + Window(ps, first + r1, r2) == Window(ps, first, r1 + r2)
  {
    var n := |ps|;
    var a, b, c := SliceBound(first, n), SliceBound(first + r1, n), SliceBound(first + r1 + r2, n);
    assert a <= b <= c;
    if a < b && b < c {
      assert ps[a..b] + ps[b..c] == ps[a..c];
    }
  }

  /**
   * A negative page size is not clamped to an empty page: like `slice`, an end
   * below zero counts from the end of the list.
   */
  lemma NegativeRowsCountFromEnd(ps: seq<Project>, first: int, rows: int)
    requires 0 <= first && rows < 0 && first + rows < 0 && first < |ps| + first + rows
    ensures Window(ps, first, rows) == ps[first..|ps| + first + rows]
  {
  }

  /** A negative start counts from the end: with an end at or past the list's end, the page is the last `k` projects. */
  lemma NegativeStartTakesLast(ps: seq<Project>, k: int, end: int)
    requires 0 < k <= |ps| && |ps| <= end
    ensures Window(ps, -k, end + k) == ps[|ps| - k..]
  {
  }

  /** A page change followed by a change of the list and its recomputation shows the new list, not the old one. */
  method RefreshScenario(home: ProjectHomeComponent, outcome: Fetch<seq<User>>)
    requires home.service.pendingLoads > 0
    modifies home, home.service
  {
    home.OnPageChange(PageEvent(0, 9));
    home.service.ReceiveUsers(outcome);
    home.UpdatePaginatedProjects();
    assert home.paginatedProjects == Window(home.service.projects, 0, 9);
    assert outcome.FetchFailed? ==> home.paginatedProjects == [];
  }
}
