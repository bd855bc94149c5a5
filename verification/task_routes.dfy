/**
 The logic of the task router with storage replaced by an in-memory sequence
 of tasks in stored order: splitting the checklist text, assembling and
 saving a new task, and listing a user's tasks.
 */
module TaskRoutes {
  import opened Wrappers
  import opened TaskSchema
  import JsDate

  /** The characters String.prototype.trim removes: ECMAScript WhiteSpace and LineTerminator. */
  predicate IsTrimmable(c: char) {
    var n := c as int;
    || n == 0x09 || n == 0x0B || n == 0x0C || n == 0x20 || n == 0xA0 || n == 0xFEFF
    || n == 0x1680 || (0x2000 <= n <= 0x200A) || n == 0x202F || n == 0x205F || n == 0x3000
    || n == 0x0A || n == 0x0D || n == 0x2028 || n == 0x2029
  }

  predicate NoEdgeWhitespace(s: string) {
    |s| == 0 || (!IsTrimmable(s[0]) && !IsTrimmable(s[|s| - 1]))
  }

  /** Drops the leading trimmable characters. */
  function TrimStart(s: string): (r: string)
    ensures |r| <= |s| && r == s[|s| - |r|..]
    ensures forall k :: 0 <= k < |s| - |r| ==> IsTrimmable(s[k])
    ensures |r| == 0 || !IsTrimmable(r[0])
  {
    if |s| > 0 && IsTrimmable(s[0]) then TrimStart(s[1..]) else s
  }

  /** Drops the trailing trimmable characters. */
  function TrimEnd(s: string): (r: string)
    ensures |r| <= |s| && r == s[..|r|]
    ensures forall k :: |r| <= k < |s| ==> IsTrimmable(s[k])
    ensures |r| == 0 || !IsTrimmable(r[|r| - 1])
  {
    if |s| > 0 && IsTrimmable(s[|s| - 1]) then TrimEnd(s[..|s| - 1]) else s
  }

  /** `r` is `s` with `lead` trimmable characters cut from the front and only trimmable ones from the back. */
  predicate TrimmedFrom(s: string, lead: int, r: string) {
    && 0 <= lead <= |s| - |r|
    && r == s[lead..lead + |r|]
    && (forall k :: 0 <= k < lead ==> IsTrimmable(s[k]))
    && (forall k :: lead + |r| <= k < |s| ==> IsTrimmable(s[k]))
  }

  /** String.prototype.trim: the middle of `s` left after cutting whitespace off both ends. */
  function Trim(s: string): (r: string)
    ensures NoEdgeWhitespace(r)
  {
    TrimEnd(TrimStart(s))
  }

  /** Trimming removes only whitespace, and only from the two ends. */
  lemma TrimCutsOnlyEdges(s: string)
    ensures exists lead :: TrimmedFrom(s, lead, Trim(s))
  {
    var t := TrimStart(s);
    TrimEndOfSuffix(s, t, TrimEnd(t));
    assert TrimmedFrom(s, |s| - |t|, Trim(s));
  }

  lemma TrimEndOfSuffix(s: string, t: string, r: string)
    requires |t| <= |s| && t == s[|s| - |t|..]
    requires forall k :: 0 <= k < |s| - |t| ==> IsTrimmable(s[k])
    requires |r| <= |t| && r == t[..|r|]
    requires forall k :: |r| <= k < |t| ==> IsTrimmable(t[k])
    ensures TrimmedFrom(s, |s| - |t|, r)
  {
    var lead := |s| - |t|;
    forall k | lead + |r| <= k < |s|
      ensures IsTrimmable(s[k])
    {
      assert s[k] == t[k - lead];
    }
  }

  /** Text already free of edge whitespace is left as it is. */
  lemma TrimKeepsClean(s: string)
    requires NoEdgeWhitespace(s)
    ensures Trim(s) == s
  {
  }

  lemma {:induction false} TrimStartPadded(pre: string, rest: string)
    requires forall k :: 0 <= k < |pre| ==> IsTrimmable(pre[k])
    requires |rest| == 0 || !IsTrimmable(rest[0])
    ensures TrimStart(pre + rest) == rest
  {
    if |pre| > 0 {
      assert (pre + rest)[1..] == pre[1..] + rest;
      TrimStartPadded(pre[1..], rest);
    } else {
      assert pre + rest == rest;
    }
  }

  lemma {:induction false} TrimEndPadded(core: string, post: string)
    requires forall k :: 0 <= k < |post| ==> IsTrimmable(post[k])
    requires |core| == 0 || !IsTrimmable(core[|core| - 1])
    ensures TrimEnd(core + post) == core
  {
    if |post| > 0 {
      var s := core + post;
      assert s[..|s| - 1] == core + post[..|post| - 1];
      TrimEndPadded(core, post[..|post| - 1]);
    } else {
      assert core + post == core;
    }
  }

  /** Trim returns exactly the core of any whitespace-padded text whose core has clean edges. */
  lemma TrimPadded(pre: string, core: string, post: string)
    requires forall k :: 0 <= k < |pre| ==> IsTrimmable(pre[k])
    requires forall k :: 0 <= k < |post| ==> IsTrimmable(post[k])
    requires NoEdgeWhitespace(core)
    ensures Trim(pre + core + post) == core
  {
    assert pre + core + post == pre + (core + post);
    if |core| == 0 {
      assert core + post == post;
      TrimStartPadded(pre + post, "");
      assert pre + post + "" == pre + post;
      TrimEndPadded("", "");
    } else {
      TrimStartPadded(pre, core + post);
      TrimEndPadded(core, post);
    }
  }

  lemma TrimIdempotent(s: string)
    ensures Trim(Trim(s)) == Trim(s)
  {
    TrimKeepsClean(Trim(s));
  }

  /** String.prototype.split(","): the pieces between commas, empty pieces kept. */
  function SplitCommas(s: string): (parts: seq<string>)
    ensures |parts| >= 1
    ensures forall i :: 0 <= i < |parts| ==> ',' !in parts[i]
  {
    if |s| == 0 then [""]
    else
      var rest := SplitCommas(s[1..]);
      if s[0] == ',' then [""] + rest
      else [[s[0]] + rest[0]] + rest[1..]
  }

  /** One piece more than there are commas. */
  lemma {:induction false} SplitCommasCount(s: string)
    ensures |SplitCommas(s)| == multiset(s)[','] + 1
  {
    if |s| > 0 {
      assert s == [s[0]] + s[1..];
      SplitCommasCount(s[1..]);
    }
  }

  /** Array.prototype.join(","): the pieces with a comma between neighbours. */
  function JoinCommas(parts: seq<string>): string
    requires |parts| >= 1
  {
    if |parts| == 1 then parts[0] else parts[0] + "," + JoinCommas(parts[1..])
  }

  lemma JoinCommasCons(x: string, rest: seq<string>)
    requires |rest| > 1
    ensures JoinCommas([x + rest[0]] + rest[1..]) == x + JoinCommas(rest)
  {
    var parts := [x + rest[0]] + rest[1..];
    var j := JoinCommas(rest[1..]);
    assert |parts| == |rest| > 1;
    assert parts[0] == x + rest[0] && parts[1..] == rest[1..];
    calc {
      JoinCommas(parts);
      parts[0] + "," + JoinCommas(parts[1..]);
      (x + rest[0]) + "," + j;
      x + (rest[0] + "," + j);
      x + JoinCommas(rest);
    }
  }

  /** Joining the pieces gives back the text they were split from. */
  lemma {:induction false} JoinSplitCommas(s: string)
    ensures JoinCommas(SplitCommas(s)) == s
  {
    if |s| > 0 {
      var rest := SplitCommas(s[1..]);
      JoinSplitCommas(s[1..]);
      if s[0] == ',' {
        assert SplitCommas(s) == [""] + rest;
        assert JoinCommas(SplitCommas(s)) == "" + "," + JoinCommas(rest);
      } else {
        assert SplitCommas(s) == [[s[0]] + rest[0]] + rest[1..];
        if |rest| > 1 {
          JoinCommasCons([s[0]], rest);
        } else {
          assert SplitCommas(s) == [[s[0]] + rest[0]];
        }
      }
      assert s == [s[0]] + s[1..];
    }
  }

  lemma {:induction false} SplitCommaFreePrefix(a: string, b: string)
    requires ',' !in a
    ensures SplitCommas(a + b) == [a + SplitCommas(b)[0]] + SplitCommas(b)[1..]
  {
    if |a| > 0 {
      assert (a + b)[1..] == a[1..] + b;
      assert (a + b)[0] == a[0];
      SplitCommaFreePrefix(a[1..], b);
      assert [a[0]] + (a[1..] + SplitCommas(b)[0]) == a + SplitCommas(b)[0];
    } else {
      var parts := SplitCommas(b);
      assert a + b == b;
      assert a + parts[0] == parts[0];
      assert parts == [parts[0]] + parts[1..];
    }
  }

  /** Splitting comma-free pieces joined by commas gives back the pieces. */
  lemma {:induction false} SplitJoinCommas(parts: seq<string>)
    requires |parts| >= 1
    requires forall i :: 0 <= i < |parts| ==> ',' !in parts[i]
    ensures SplitCommas(JoinCommas(parts)) == parts
  {
    if |parts| == 1 {
      SplitCommaFreePrefix(parts[0], "");
      assert parts[0] + "" == parts[0];
    } else {
      var tail := JoinCommas(parts[1..]);
      SplitJoinCommas(parts[1..]);
      assert JoinCommas(parts) == parts[0] + ("," + tail);
      SplitCommaFreePrefix(parts[0], "," + tail);
      assert ("," + tail)[1..] == tail;
      var after := SplitCommas("," + tail);
      assert after == [""] + parts[1..];
      assert after[0] == "" && after[1..] == parts[1..];
      assert parts[0] + "" == parts[0];
      assert parts == [parts[0]] + parts[1..];
    }
  }

  /** `checklist.split(",").map((item) => item.trim())`. */
  function SplitChecklist(text: string): (items: seq<string>)
    ensures |items| == |SplitCommas(text)|
    ensures forall i :: 0 <= i < |items| ==> items[i] == Trim(SplitCommas(text)[i])
    ensures forall i :: 0 <= i < |items| ==> NoEdgeWhitespace(items[i]) && ',' !in items[i]
  {
    var parts := SplitCommas(text);
    seq(|parts|, i requires 0 <= i < |parts| => Trim(parts[i]))
  }

  /** Splitting joined comma-free pieces trims each piece and keeps their number. */
  lemma SplitChecklistOfJoin(parts: seq<string>)
    requires |parts| >= 1
    requires forall i :: 0 <= i < |parts| ==> ',' !in parts[i]
    ensures |SplitChecklist(JoinCommas(parts))| == |parts|
    ensures forall i :: 0 <= i < |parts| ==> SplitChecklist(JoinCommas(parts))[i] == Trim(parts[i])
  {
    SplitJoinCommas(parts);
  }

  /** The text of one empty piece splits into one empty item. */
  lemma SplitChecklistEmpty()
    ensures SplitChecklist("") == [""]
  {
    TrimKeepsClean("");
  }

  /** The fields of `POST /new` as read from the request body; absent fields are `None`. */
  datatype NewTaskBody = NewTaskBody(
    title: Option<string>,
    priority: Option<string>,
    checklist: Option<string>,
    ownerId: Option<string>,
    assigneeId: Option<string>)

  /** Why a new task was not built: the checklist text is missing, an id does not parse, or the schema refused it. */
  datatype CreateError = ChecklistMissing | InvalidId(field: string) | Invalid(errors: set<FieldError>)

  /** Parses an optional id text; an absent id fails like a malformed one. */
  function ParseIdField(id: Option<string>, parseId: string -> Option<ObjectId>): (r: Option<ObjectId>)
    ensures r.Some? <==> id.Some? && parseId(id.value).Some?
    ensures r.Some? ==> r == parseId(id.value)
  {
    if id.Some? then parseId(id.value) else None
  }

  /** The schema fields the route supplies: category, member, createdAt and due date are left to the schema. */
  function NewTaskFields(body: NewTaskBody, items: seq<string>, owner: ObjectId, assignee: ObjectId)
    : (f: TaskFields)
    ensures f.title == body.title && f.priority == body.priority
    ensures f.owner == Some(owner) && f.assignee == Some(assignee)
    ensures f.member.None? && f.createdAt.None? && f.category.None? && f.duedate.None?
    ensures |f.checklist| == |items|
    ensures forall i :: 0 <= i < |items| ==> f.checklist[i] == ChecklistFields(Some(items[i]), None)
  {
    TaskFields(
      title := body.title,
      priority := body.priority,
      assignee := Some(assignee),
      member := None,
      owner := Some(owner),
      createdAt := None,
      checklist := seq(|items|, i requires 0 <= i < |items| => ChecklistFields(Some(items[i]), None)),
      category := None,
      duedate := None)
  }

  /**
   `POST /new` up to the save: split the checklist text, parse the owner and
   assignee ids, and build the task through the schema at instant `now`.
   `parseId` stands for the driver's hex-string conversion.
   */
  function CreateTask(body: NewTaskBody, parseId: string -> Option<ObjectId>, now: JsDate.DateTime)
    : (r: Result<Task, CreateError>)
    ensures body.checklist.None? ==> r == Err(ChecklistMissing)
    ensures (body.checklist.Some? && ParseIdField(body.ownerId, parseId).None?)
              ==> r == Err(InvalidId("ownerId"))
    ensures (body.checklist.Some? && ParseIdField(body.ownerId, parseId).Some?
             && ParseIdField(body.assigneeId, parseId).None?)
              ==> r == Err(InvalidId("assigneeId"))
    ensures (&& body.checklist.Some?
             && ParseIdField(body.ownerId, parseId).Some?
             && ParseIdField(body.assigneeId, parseId).Some?
             && r.Err?)
              ==> && r.error.Invalid?
                  && (Required("title") in r.error.errors <==> MissingString(body.title))
                  && (Required("priority") in r.error.errors <==> MissingString(body.priority))
    ensures r.Ok? <==>
              && body.checklist.Some?
              && ParseIdField(body.ownerId, parseId).Some?
              && ParseIdField(body.assigneeId, parseId).Some?
              && !MissingString(body.title)
              && !MissingString(body.priority) && body.priority.value in PriorityLabels
    ensures r.Ok? ==> var t := r.value;
              && Some(t.owner) == parseId(body.ownerId.value)
              && t.assignee == parseId(body.assigneeId.value)
              && Some(t.title) == body.title
              && Some(PriorityLabel(t.priority)) == body.priority
              && t.category == ToDo
              && t.member == None
              && t.duedate == None
              && t.createdAt == now
              && |t.checklist| == |SplitChecklist(body.checklist.value)|
              && forall i :: 0 <= i < |t.checklist| ==>
                   t.checklist[i] == ChecklistItem(Some(SplitChecklist(body.checklist.value)[i]), false)
  {
    if body.checklist.None? then Err(ChecklistMissing)
    else
      var items := SplitChecklist(body.checklist.value);
      var owner := ParseIdField(body.ownerId, parseId);
      if owner.None? then Err(InvalidId("ownerId"))
      else
        var assignee := ParseIdField(body.assigneeId, parseId);
        if assignee.None? then Err(InvalidId("assigneeId"))
        else
          match MakeTask(NewTaskFields(body, items, owner.value, assignee.value), now)
          case Ok(t) => Ok(t)
          case Err(errors) => Err(Invalid(errors))
  }

  /** `newTask.save()`: the store gains the new task at its end; nothing else changes. */
  function PostNewTask(store: seq<Task>, body: NewTaskBody, parseId: string -> Option<ObjectId>,
                       now: JsDate.DateTime): (r: Result<seq<Task>, CreateError>)
    ensures r.Ok? <==> CreateTask(body, parseId, now).Ok?
    ensures r.Ok? ==> r.value == store + [CreateTask(body, parseId, now).value]
    ensures r.Err? ==> r.error == CreateTask(body, parseId, now).error
  {
    match CreateTask(body, parseId, now)
    case Ok(t) => Ok(store + [t])
    case Err(e) => Err(e)
  }

  /** The elements of `s` satisfying `p`, in their order in `s`. */
  function Filter<T(!new)>(s: seq<T>, p: T -> bool): (r: seq<T>)
    ensures |r| <= |s|
    ensures forall x :: x in r <==> x in s && p(x)
    ensures forall i :: 0 <= i < |r| ==> p(r[i])
  {
    if |s| == 0 then []
    else
      assert s == [s[0]] + s[1..];
      if p(s[0]) then [s[0]] + Filter(s[1..], p) else Filter(s[1..], p)
  }

  /** Filtering keeps every occurrence of a kept element and none of a dropped one. */
  lemma {:induction false} FilterCount<T(!new)>(s: seq<T>, p: T -> bool)
    ensures forall x :: multiset(Filter(s, p))[x] == if p(x) then multiset(s)[x] else 0
  {
    if |s| > 0 {
      assert s == [s[0]] + s[1..];
      FilterCount(s[1..], p);
    }
  }

  /** Filtering keeps the relative order: it distributes over concatenation. */
  lemma {:induction false} FilterAppend<T(!new)>(a: seq<T>, b: seq<T>, p: T -> bool)
    ensures Filter(a + b, p) == Filter(a, p) + Filter(b, p)
  {
    if |a| > 0 {
      assert (a + b)[1..] == a[1..] + b;
      assert (a + b)[0] == a[0];
      FilterAppend(a[1..], b, p);
    } else {
      assert a + b == b;
    }
  }

  predicate AssignedTo(t: Task, userid: ObjectId) {
    t.assignee == Some(userid)
  }

  predicate OwnedBy(t: Task, userid: ObjectId) {
    t.owner == userid
  }

  /**
   `GET /user/:userid`: the tasks assigned to the user followed by the tasks
   the user owns, each group in stored order. A task both assigned to and
   owned by the user appears once in each group.
   */
  function UserTasks(store: seq<Task>, userid: ObjectId): (r: seq<Task>)
    ensures forall t :: t in r <==> t in store && (AssignedTo(t, userid) || OwnedBy(t, userid))
  {
    Filter(store, t => AssignedTo(t, userid)) + Filter(store, t => OwnedBy(t, userid))
  }

  /** Each stored task is listed once for being assigned to the user and once more for being owned by them. */
  lemma UserTasksCount(store: seq<Task>, userid: ObjectId)
    ensures forall t :: multiset(UserTasks(store, userid))[t] ==
              (if AssignedTo(t, userid) then multiset(store)[t] else 0)
              + (if OwnedBy(t, userid) then multiset(store)[t] else 0)
  {
    var assignedTasks := Filter(store, t => AssignedTo(t, userid));
    var owned := Filter(store, t => OwnedBy(t, userid));
    FilterCount(store, t => AssignedTo(t, userid));
    FilterCount(store, t => OwnedBy(t, userid));
    assert multiset(UserTasks(store, userid)) == multiset(assignedTasks) + multiset(owned);
  }

  /** The assigned tasks come first, then the owned ones. */
  lemma UserTasksOrder(store: seq<Task>, userid: ObjectId)
    ensures exists k :: AssignedFirst(UserTasks(store, userid), k, store, userid)
  {
    var assignedTasks := Filter(store, t => AssignedTo(t, userid));
    var owned := Filter(store, t => OwnedBy(t, userid));
    var tasks := UserTasks(store, userid);
    FilterCount(store, t => AssignedTo(t, userid));
    assert tasks[..|assignedTasks|] == assignedTasks && tasks[|assignedTasks|..] == owned;
    assert AssignedFirst(tasks, |assignedTasks|, store, userid);
  }

  /** `r[..k]` holds the tasks assigned to the user, with their multiplicity in the store; `r[k..]` only owned tasks. */
  ghost predicate AssignedFirst(r: seq<Task>, k: int, store: seq<Task>, userid: ObjectId) {
    && 0 <= k <= |r|
    && (forall i :: 0 <= i < k ==> AssignedTo(r[i], userid))
    && (forall i :: k <= i < |r| ==> OwnedBy(r[i], userid))
    && (forall t :: multiset(r[..k])[t] == if AssignedTo(t, userid) then multiset(store)[t] else 0)
  }

  /** A JavaScript value, as far as truthiness needs it; an array is known by its length only. */
  datatype JsValue = Undefined | Null | Boolean(b: bool) | Number(n: int) | Text(s: string) | Array(length: nat)

  /** ToBoolean: only undefined, null, false, 0 and "" are falsy; every array is truthy. */
  predicate Truthy(v: JsValue): (b: bool)
    ensures v.Array? ==> b
    ensures (v == Undefined || v == Null || v == Boolean(false) || v == Number(0) || v == Text("")) ==> !b
  {
    match v
    case Undefined => false
    case Null => false
    case Boolean(b) => b
    case Number(n) => n != 0
    case Text(s) => s != ""
    case Array(_) => true
  }

  /** The reply of `GET /user/:userid`; `CastFailed` is the query rejecting a `userid` that is no id. */
  datatype UserTasksReply = TaskList(tasks: seq<Task>) | NoTasksFound | CastFailed

  /**
   The route's reply. The path parameter is cast to an id by the query
   (`castId`, the library's cast); a text that does not cast makes the query
   fail. Otherwise the `No tasks found` branch is never taken: an empty list is
   sent instead.
   */
  function ListUserTasks(store: seq<Task>, userid: string, castId: string -> Option<ObjectId>)
    : (r: UserTasksReply)
    ensures r == CastFailed <==> castId(userid).None?
    ensures castId(userid).Some? ==> r == TaskList(UserTasks(store, castId(userid).value))
    ensures !r.NoTasksFound?
  {
    match castId(userid)
    case None => CastFailed
    case Some(id) =>
      var tasks := UserTasks(store, id);
      if Truthy(Array(|tasks|)) then TaskList(tasks) else NoTasksFound
  }

  /** The list is empty exactly when no stored task is assigned to or owned by the user. */
  lemma UserTasksEmpty(store: seq<Task>, userid: ObjectId)
    ensures |UserTasks(store, userid)| == 0 <==>
              forall t :: t in store ==> !AssignedTo(t, userid) && !OwnedBy(t, userid)
  {
    var tasks := UserTasks(store, userid);
    if |tasks| > 0 {
      assert tasks[0] in tasks;
    }
  }

  /** A task just created shows up in the listing of its owner and of its assignee. */
  lemma CreatedTaskIsListed(store: seq<Task>, body: NewTaskBody, parseId: string -> Option<ObjectId>,
                            now: JsDate.DateTime)
    requires PostNewTask(store, body, parseId, now).Ok?
    ensures var t := CreateTask(body, parseId, now).value;
            var store' := PostNewTask(store, body, parseId, now).value;
            && t in UserTasks(store', t.owner)
            && t in UserTasks(store', t.assignee.value)
  {
    var t := CreateTask(body, parseId, now).value;
    assert t in PostNewTask(store, body, parseId, now).value;
  }
}
