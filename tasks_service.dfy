/**
 * The ownership-scoped task manager: create, paginated listing, get,
 * partial update and delete over a store of tasks, each owned by one user.
 */
module Tasks {
  import opened Common
  import opened TaskEntity
  import opened TaskDto

  /**
   * The domain errors of get, update and remove, and the store's refusal of
   * a null in a column that does not allow one.
   */
  datatype TaskError = NotFound(id: Uuid) | Forbidden | NotNullViolation(column: string)

  /** A partial update: a present field overwrites the stored one. */
  datatype TaskPatch = TaskPatch(title: Option<string>, description: Option<string>, status: Option<TaskStatus>)

  /** The page and page size a listing asks for; either may be left out. */
  datatype Pagination = Pagination(page: Option<int>, limit: Option<int>)

  datatype Meta = Meta(total: nat, page: int, limit: int, totalPages: nat)

  /** One page of the caller's tasks and the figures that describe all pages. */
  datatype PaginatedTasks = PaginatedTasks(data: seq<Task>, meta: Meta)

  const DefaultPage := 1
  const DefaultLimit := 10

  /** The number of tasks skipped before page `page` of size `limit`. */
  function Offset(page: int, limit: int): (skip: nat)
    requires page >= 1 && limit >= 1
  {
    (page - 1) * limit
  }

  /** Page and page size, when given, are at least 1. */
  predicate ValidPagination(p: Pagination) {
    (p.page.Some? ==> p.page.value >= 1) && (p.limit.Some? ==> p.limit.value >= 1)
  }

  // ---------------------------------------------------------------------------
  // Pagination arithmetic
  // ---------------------------------------------------------------------------

  /** The number of pages of size `limit` that hold `total` items: the ceiling of total / limit. */
  function PageCount(total: nat, limit: int): (pages: nat)
    requires limit >= 1
    ensures pages * limit >= total
    ensures pages > 0 ==> (pages - 1) * limit < total
  {
    var q := (total + limit - 1) / limit;
    assert q * limit + (total + limit - 1) % limit == total + limit - 1;
    q
  }

  /** The items from offset `skip` on, at most `take` of them; empty past the end. */
  function Window<T>(s: seq<T>, skip: nat, take: nat): (w: seq<T>)
    ensures |w| == if skip >= |s| then 0 else Min(take, |s| - skip)
    ensures forall i | 0 <= i < |w| :: skip + i < |s| && w[i] == s[skip + i]
  {
    s[Min(skip, |s|)..Min(skip + take, |s|)]
  }

  /** A window of a newest-first sequence is newest first and holds only its elements. */
  lemma WindowOfNewestFirst(s: seq<Task>, skip: nat, take: nat)
    requires NewestFirst(s)
    ensures NewestFirst(Window(s, skip, take))
    ensures forall t | t in Window(s, skip, take) :: t in s
  {
    var w := Window(s, skip, take);
    forall i, j | 0 <= i < j < |w| ensures w[i].createdAt >= w[j].createdAt {
      assert w[i] == s[skip + i] && w[j] == s[skip + j];
    }
    forall t | t in w ensures t in s {
      var i :| 0 <= i < |w| && w[i] == t;
      assert s[skip + i] == t;
    }
  }

  /** Page `k + 1` starts where page `k` ends, after the first `k * limit` items. */
  lemma OffsetStep(k: int, limit: int)
    requires k >= 1 && limit >= 1
    ensures Offset(k + 1, limit) == Offset(k, limit) + limit == k * limit
  {
  }

  /** Pages 1 to `k` of size `limit` of `all`, one after the other. */
  ghost function PagesUpTo<T>(all: seq<T>, limit: int, k: nat): seq<T>
    requires limit >= 1
  {
    if k == 0 then [] else PagesUpTo(all, limit, k - 1) + Window(all, Offset(k, limit), limit)
  }

  /** The first `k` pages hold the first `k * limit` items, in order. */
  lemma {:induction false} PagesUpToArePrefix<T>(all: seq<T>, limit: int, k: nat)
    requires limit >= 1
    ensures PagesUpTo(all, limit, k) == all[..Min(k * limit, |all|)]
  {
    if k == 0 {
      assert k * limit == 0;
    } else {
      OffsetStep(k, limit);
      PagesUpToArePrefix(all, limit, k - 1);
      WindowExtendsPrefix(all, Offset(k, limit), limit);
    }
  }

  /** The window after a prefix extends that prefix by the window's length. */
  lemma WindowExtendsPrefix<T>(all: seq<T>, skip: nat, take: nat)
    ensures all[..Min(skip, |all|)] + Window(all, skip, take) == all[..Min(skip + take, |all|)]
  {
    var end := Min(skip + take, |all|);
    if skip < |all| {
      assert all[..skip] + all[skip..end] == all[..end];
    }
  }

  /** Pages 1 to PageCount(|all|, limit) hold every item exactly once, in order. */
  lemma {:induction false} PagesCoverAll<T>(all: seq<T>, limit: int)
    requires limit >= 1
    ensures PagesUpTo(all, limit, PageCount(|all|, limit)) == all
  {
    PagesUpToArePrefix(all, limit, PageCount(|all|, limit));
    assert all[..|all|] == all;
  }

  /** A page past the last one is empty. */
  lemma PageBeyondEnd<T>(all: seq<T>, page: int, limit: int)
    requires limit >= 1 && page >= 1
    ensures page > PageCount(|all|, limit) ==> Window(all, Offset(page, limit), limit) == []
  {
    var pages := PageCount(|all|, limit);
    if page > pages {
      var extra := page - 1 - pages;
      assert (page - 1) * limit == pages * limit + extra * limit;
    }
  }

  // ---------------------------------------------------------------------------
  // The caller's tasks, newest first
  // ---------------------------------------------------------------------------

  /** Every task is stored under its own id. */
  ghost predicate KeyedById(tasks: map<Uuid, Task>) {
    forall id | id in tasks :: tasks[id].id == id
  }

  /** The ids of the tasks `user` owns. */
  ghost function OwnedIds(tasks: map<Uuid, Task>, user: Uuid): set<Uuid> {
    set id | id in tasks && tasks[id].userId == user
  }

  /** The ids below `n` of the tasks `user` owns. */
  ghost function OwnedIdsBelow(tasks: map<Uuid, Task>, user: Uuid, n: nat): set<Uuid> {
    set id | id in tasks && id < n && tasks[id].userId == user
  }

  /** The tasks `user` owns among the ids below `n`, in increasing id order. */
  function OwnedTasks(tasks: map<Uuid, Task>, user: Uuid, n: nat): (r: seq<Task>)
    requires KeyedById(tasks)
    ensures forall t | t in r :: t.id < n && t.id in tasks && tasks[t.id] == t && t.userId == user
    ensures forall id | id in tasks && id < n && tasks[id].userId == user :: tasks[id] in r
    ensures forall i, j | 0 <= i < j < |r| :: r[i].id < r[j].id
  {
    if n == 0 then
      []
    else
      var prefix := OwnedTasks(tasks, user, n - 1);
      if n - 1 in tasks && tasks[n - 1].userId == user then prefix + [tasks[n - 1]] else prefix
  }

  /** The enumeration holds exactly one task per owned id. */
  lemma {:induction false} OwnedTasksCount(tasks: map<Uuid, Task>, user: Uuid, n: nat)
    requires KeyedById(tasks)
    ensures |OwnedTasks(tasks, user, n)| == |OwnedIdsBelow(tasks, user, n)|
  {
    if n == 0 {
      assert OwnedIdsBelow(tasks, user, 0) == {};
    } else {
      var k := n - 1;
      OwnedTasksCount(tasks, user, k);
      if k in tasks && tasks[k].userId == user {
        assert |OwnedTasks(tasks, user, n)| == |OwnedTasks(tasks, user, k)| + 1;
        OwnedIdsBelowStep(tasks, user, k);
      } else {
        assert |OwnedTasks(tasks, user, n)| == |OwnedTasks(tasks, user, k)|;
        OwnedIdsBelowStep(tasks, user, k);
      }
    }
  }

  /** Raising the bound by one adds id `k` exactly when `user` owns it. */
  lemma OwnedIdsBelowStep(tasks: map<Uuid, Task>, user: Uuid, k: nat)
    ensures k in tasks && tasks[k].userId == user ==>
      |OwnedIdsBelow(tasks, user, k + 1)| == |OwnedIdsBelow(tasks, user, k)| + 1
    ensures !(k in tasks && tasks[k].userId == user) ==>
      |OwnedIdsBelow(tasks, user, k + 1)| == |OwnedIdsBelow(tasks, user, k)|
  {
    var below := OwnedIdsBelow(tasks, user, k);
    if k in tasks && tasks[k].userId == user {
      assert OwnedIdsBelow(tasks, user, k + 1) == below + {k};
      assert k !in below;
    } else {
      assert OwnedIdsBelow(tasks, user, k + 1) == below;
    }
  }

  /** Newest first: creation instants never increase along the sequence. */
  ghost predicate NewestFirst(s: seq<Task>) {
    forall i, j | 0 <= i < j < |s| :: s[i].createdAt >= s[j].createdAt
  }

  /** Inserts `t` into a newest-first sequence, keeping it newest first. */
  function InsertNewestFirst(t: Task, s: seq<Task>): (r: seq<Task>)
    requires NewestFirst(s)
    ensures NewestFirst(r)
    ensures multiset(r) == multiset(s) + multiset{t}
    ensures |r| > 0 && (r[0] == t || (|s| > 0 && r[0] == s[0]))
  {
    if s == [] then
      [t]
    else if t.createdAt >= s[0].createdAt then
      [t] + s
    else
      var rest := InsertNewestFirst(t, s[1..]);
      assert s == [s[0]] + s[1..];
      PrependNewest(s[0], rest);
      [s[0]] + rest
  }

  /** A task no older than the head of a newest-first sequence may go in front of it. */
  lemma PrependNewest(h: Task, s: seq<Task>)
    requires NewestFirst(s)
    requires s != [] ==> h.createdAt >= s[0].createdAt
    ensures NewestFirst([h] + s)
  {
    var r := [h] + s;
    forall i, j | 0 <= i < j < |r| ensures r[i].createdAt >= r[j].createdAt {
      if i > 0 {
        assert r[i] == s[i - 1] && r[j] == s[j - 1];
      } else {
        assert r[j] == s[j - 1];
      }
    }
  }

  /** The same tasks, newest first. */
  function SortNewestFirst(s: seq<Task>): (r: seq<Task>)
    ensures NewestFirst(r)
    ensures multiset(r) == multiset(s)
  {
    if s == [] then
      []
    else
      assert s == [s[0]] + s[1..];
      InsertNewestFirst(s[0], SortNewestFirst(s[1..]))
  }

  /** The store of tasks, as the tasks repository holds it. */
  class TasksService {
    var tasks: map<Uuid, Task>
    /** The id the store will generate for the next saved task. */
    var nextId: Uuid

    /** Tasks are stored under their own ids, and every generated id is below `nextId`. */
    ghost predicate Valid()
      reads this
    {
      KeyedById(tasks) && forall id | id in tasks :: id < nextId
    }

    constructor ()
      ensures Valid() && tasks == map[]
    {
      tasks := map[];
      nextId := 0;
    }

    /**
     * Saves a new task built from the validated input, stamped with the
     * caller's id and the current instant, with the default status when the
     * input leaves it out. An explicit null status is written as null, which
     * the non-nullable status column refuses.
     */
    method Create(dto: CreateTaskDto, user: Uuid, now: int) returns (r: Result<Task, TaskError>)
      requires Valid()
      modifies this
      ensures Valid() && r.Failure? == dto.status.NullStatus?
      ensures r.Failure? ==> r.error == NotNullViolation("status") && tasks == old(tasks) && nextId == old(nextId)
      ensures r.Success? ==> var task := r.value;
        && task.id !in old(tasks)
        && task.userId == user && task.createdAt == now
        && task.title == dto.title && task.description == dto.description
        && task.status == (if dto.status.Status? then dto.status.value else DefaultStatus)
        && tasks == old(tasks)[task.id := task]
        && FindOne(task.id, user) == Success(task)
    {
      if dto.status.NullStatus? {
        return Failure(NotNullViolation("status"));
      }
      var status := if dto.status.Status? then dto.status.value else DefaultStatus;
      var task := Task(nextId, dto.title, dto.description, status, now, user);
      tasks := tasks[nextId := task];
      nextId := nextId + 1;
      return Success(task);
    }

    /** All of the caller's tasks, newest first. */
    function Listing(user: Uuid): (r: seq<Task>)
      reads this
      requires Valid()
      ensures NewestFirst(r)
      ensures forall t | t in r :: t.id in tasks && tasks[t.id] == t && t.userId == user
      ensures forall id | id in tasks && tasks[id].userId == user :: tasks[id] in r
      ensures |r| == |OwnedIds(tasks, user)|
    {
      var owned := OwnedTasks(tasks, user, nextId);
      var r := SortNewestFirst(owned);
      OwnedTasksCount(tasks, user, nextId);
      assert OwnedIdsBelow(tasks, user, nextId) == OwnedIds(tasks, user);
      assert |r| == |multiset(r)| == |multiset(owned)| == |owned|;
      assert forall t | t in r :: t in owned by {
        forall t | t in r ensures t in owned {
          assert t in multiset(r);
        }
      }
      assert forall t | t in owned :: t in r by {
        forall t | t in owned ensures t in r {
          assert t in multiset(owned);
        }
      }
      r
    }

    /**
     * One page of the caller's tasks, newest first, with page 1 and size 10
     * when those are not given, and the figures that describe all pages.
     */
    function FindAll(user: Uuid, pagination: Pagination): (r: PaginatedTasks)
      reads this
      requires Valid()
      requires ValidPagination(pagination)
      ensures r.meta.page == pagination.page.GetOr(DefaultPage)
      ensures r.meta.limit == pagination.limit.GetOr(DefaultLimit)
      ensures r.meta.total == |OwnedIds(tasks, user)|
      ensures r.meta.totalPages == PageCount(r.meta.total, r.meta.limit)
      ensures forall t | t in r.data :: t.id in tasks && tasks[t.id] == t && t.userId == user
      ensures NewestFirst(r.data)
      ensures var skip := Offset(r.meta.page, r.meta.limit);
        && |r.data| == (if skip >= r.meta.total then 0 else Min(r.meta.limit, r.meta.total - skip))
        && r.data == Window(Listing(user), skip, r.meta.limit)
      ensures r.meta.page > r.meta.totalPages ==> r.data == []
    {
      var page := pagination.page.GetOr(DefaultPage);
      var limit := pagination.limit.GetOr(DefaultLimit);
      var skip := Offset(page, limit);
      var all := Listing(user);
      var data := Window(all, skip, limit);
      WindowOfNewestFirst(all, skip, limit);
      PageBeyondEnd(all, page, limit);
      PaginatedTasks(data, Meta(|all|, page, limit, PageCount(|all|, limit)))
    }

    /**
     * Paging covers the listing exactly: pages 1 to totalPages of FindAll,
     * one after the other, are all of the caller's tasks, newest first.
     */
    lemma {:induction false} PagesCoverListing(user: Uuid, limit: int)
      requires Valid() && limit >= 1
      ensures var pages := FindAll(user, Pagination(None, Some(limit))).meta.totalPages;
        PagesUpTo(Listing(user), limit, pages) == Listing(user)
    {
      PagesCoverAll(Listing(user), limit);
    }

    /**
     * Ownership isolation: a caller who is not the owner is refused the
     * task, while the owner gets it; neither sees NotFound for a stored id.
     */
    lemma OnlyOwnerReaches(id: Uuid, owner: Uuid, other: Uuid)
      requires id in tasks && tasks[id].userId == owner && other != owner
      ensures FindOne(id, other) == Failure(Forbidden)
      ensures FindOne(id, owner) == Success(tasks[id])
    {
    }

    /** The stored task with this id, if the caller owns it. */
    function FindOne(id: Uuid, user: Uuid): (r: Result<Task, TaskError>)
      reads this
      ensures r == Failure(NotFound(id)) <==> id !in tasks
      ensures r == Failure(Forbidden) <==> id in tasks && tasks[id].userId != user
      ensures r.Success? <==> id in tasks && tasks[id].userId == user
      ensures r.Success? ==> r.value == tasks[id]
    {
      if id !in tasks then Failure(NotFound(id))
      else if tasks[id].userId != user then Failure(Forbidden)
      else Success(tasks[id])
    }

    /** Overwrites the fields the patch gives on the caller's task. */
    method Update(id: Uuid, patch: TaskPatch, user: Uuid) returns (r: Result<Task, TaskError>)
      requires Valid()
      modifies this
      ensures Valid() && nextId == old(nextId)
      ensures r.Success? <==> old(FindOne(id, user)).Success?
      ensures r.Failure? ==> r.error == old(FindOne(id, user)).error && tasks == old(tasks)
      ensures r.Success? ==> r.value == ApplyPatch(old(tasks)[id], patch) && tasks == old(tasks)[id := r.value]
    {
      var found := FindOne(id, user);
      if found.Failure? {
        return Failure(found.error);
      }
      var task := ApplyPatch(found.value, patch);
      tasks := tasks[id := task];
      return Success(task);
    }

    /** Deletes the caller's task. */
    method Remove(id: Uuid, user: Uuid) returns (r: Outcome<TaskError>)
      requires Valid()
      modifies this
      ensures Valid() && nextId == old(nextId)
      ensures r.Pass? <==> old(FindOne(id, user)).Success?
      ensures r.Fail? ==> r.error == old(FindOne(id, user)).error && tasks == old(tasks)
      ensures r.Pass? ==> tasks == old(tasks) - {id}
      ensures r.Pass? ==> forall other: Uuid :: FindOne(id, other) == Failure(NotFound(id))
    {
      var found := FindOne(id, user);
      if found.Failure? {
        return Fail(found.error);
      }
      tasks := tasks - {id};
      return Pass;
    }
  }

  /** The task with the fields the patch gives overwritten. */
  function ApplyPatch(t: Task, patch: TaskPatch): (r: Task)
    ensures r.id == t.id && r.userId == t.userId && r.createdAt == t.createdAt
    ensures r.title == if patch.title.Some? then patch.title.value else t.title
    ensures r.description == if patch.description.Some? then patch.description else t.description
    ensures r.status == if patch.status.Some? then patch.status.value else t.status
  {
    t.(title := patch.title.GetOr(t.title),
       description := if patch.description.Some? then patch.description else t.description,
       status := patch.status.GetOr(t.status))
  }

  /** Applying the same patch twice changes nothing more than applying it once. */
  lemma PatchIdempotent(t: Task, patch: TaskPatch)
    ensures ApplyPatch(ApplyPatch(t, patch), patch) == ApplyPatch(t, patch)
  {
  }

  /** A patch with no fields leaves the task as it was. */
  lemma EmptyPatchIsIdentity(t: Task)
    ensures ApplyPatch(t, TaskPatch(None, None, None)) == t
  {
  }

  /**
   * With 25 tasks and pages of 10 there are 3 pages: the first holds 10,
   * the third 5 and the fourth none.
   */
  lemma TwentyFiveByTen<T>(all: seq<T>)
    requires |all| == 25
    ensures PageCount(|all|, 10) == 3
    ensures |Window(all, Offset(1, 10), 10)| == 10
    ensures Offset(2, 10) == 10
    ensures |Window(all, Offset(3, 10), 10)| == 5
    ensures Window(all, Offset(4, 10), 10) == []
  {
  }
}
