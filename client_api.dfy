/**
 * frontend/src/services/api.js, the in-memory part of the client-side data
 * layer: post-processing of the task list (subtask grouping and counting,
 * progress, assignee lookup), invite-code generation, the fields `create` and
 * `update` send, and the steps of `couplesApi.join`. Query results are inputs;
 * the queries themselves are stated as the rows they ask for. Here ids are text
 * and completion is a boolean column.
 */
module ClientApi {
  import opened Common
  import CoupleModel

  /** A row of the client's `tasks` table. */
  datatype Row = Row(id: string, title: Option<string>, description: Option<string>,
                     dueDate: Option<string>, coupleId: Option<string>,
                     assigneeId: Option<string>, parentId: Option<string>,
                     category: Option<string>, priority: Option<int>,
                     completed: bool, createdAt: int)

  /** A row of `profiles`. */
  datatype Profile = Profile(id: string, name: string, color: Option<string>,
                             coupleId: Option<string>, inviteCode: Option<string>)

  /** JavaScript truthiness of a nullable text value: present and non-empty. */
  predicate Truthy(s: Option<string>)
  {
    s.Some? && s.value != ""
  }

  function Filter<T(!new)>(s: seq<T>, p: T -> bool): (r: seq<T>)
    ensures |r| <= |s|
    ensures forall x :: x in r <==> x in s && p(x)
    ensures multiset(r) <= multiset(s)
  {
    if s == [] then []
    else
      assert s == [s[0]] + s[1..];
      (if p(s[0]) then [s[0]] else []) + Filter(s[1..], p)
  }

  /** Every element that passes is kept as often as it occurs, and every other one is dropped. */
  lemma {:induction false} FilterCounts<T(!new)>(s: seq<T>, p: T -> bool)
    ensures forall x :: multiset(Filter(s, p))[x] == if p(x) then multiset(s)[x] else 0
  {
    if s != [] {
      assert s == [s[0]] + s[1..];
      FilterCounts(s[1..], p);
    }
  }

  /** Filtering a concatenation filters each part and keeps them in order. */
  lemma {:induction false} FilterAppend<T(!new)>(a: seq<T>, b: seq<T>, p: T -> bool)
    ensures Filter(a + b, p) == Filter(a, p) + Filter(b, p)
  {
    if a == [] {
      assert a + b == b;
    } else {
      var head := if p(a[0]) then [a[0]] else [];
      assert (a + b)[0] == a[0] && (a + b)[1..] == a[1..] + b;
      FilterAppend(a[1..], b, p);
      assert Filter(a + b, p) == head + Filter(a[1..] + b, p);
    }
  }

  // ---- tasksApi.list: the top-level query ----

  /** The status condition of `list`: only "completed" and "incomplete" filter. */
  predicate StatusSelects(status: Option<string>, t: Row)
  {
    && (status == Some("completed") ==> t.completed)
    && (status == Some("incomplete") ==> !t.completed)
  }

  predicate IsTopLevel(status: Option<string>, t: Row)
  {
    t.parentId.None? && StatusSelects(status, t)
  }

  ghost predicate NewestFirst(s: seq<Row>)
  {
    forall i, j :: 0 <= i < j < |s| ==> s[i].createdAt >= s[j].createdAt
  }

  ghost predicate OldestFirst(s: seq<Row>)
  {
    forall i, j :: 0 <= i < j < |s| ==> s[i].createdAt <= s[j].createdAt
  }

  function InsertNewest(x: Row, s: seq<Row>): seq<Row>
  {
    if s == [] || x.createdAt >= s[0].createdAt then [x] + s
    else [s[0]] + InsertNewest(x, s[1..])
  }

  /** `order('created_at', { ascending: false })`, as an insertion sort. */
  function SortNewest(s: seq<Row>): seq<Row>
  {
    if s == [] then [] else InsertNewest(s[0], SortNewest(s[1..]))
  }

  lemma {:induction false} InsertKeepsOrder(x: Row, s: seq<Row>)
    requires NewestFirst(s)
    ensures NewestFirst(InsertNewest(x, s))
    ensures InsertNewest(x, s)[0] == x || (s != [] && InsertNewest(x, s)[0] == s[0])
  {
    if s != [] && x.createdAt < s[0].createdAt {
      InsertKeepsOrder(x, s[1..]);
      var rest := InsertNewest(x, s[1..]);
      assert s[0].createdAt >= rest[0].createdAt;
    }
  }

  lemma {:induction false} InsertAdds(x: Row, s: seq<Row>)
    ensures multiset(InsertNewest(x, s)) == multiset(s) + multiset{x}
  {
    if s != [] && x.createdAt < s[0].createdAt {
      InsertAdds(x, s[1..]);
      assert s == [s[0]] + s[1..];
    }
  }

  /** The sort orders the rows newest first and keeps each of them. */
  lemma {:induction false} SortIsPermutation(s: seq<Row>)
    ensures NewestFirst(SortNewest(s)) && multiset(SortNewest(s)) == multiset(s)
  {
    if s != [] {
      SortIsPermutation(s[1..]);
      InsertKeepsOrder(s[0], SortNewest(s[1..]));
      InsertAdds(s[0], SortNewest(s[1..]));
      assert s == [s[0]] + s[1..];
    }
  }

  /** What the list query asks for: the top-level rows passing the status filter, newest first. */
  function TopLevelQuery(table: seq<Row>, status: Option<string>): (r: seq<Row>)
    ensures NewestFirst(r)
    ensures multiset(r) == multiset(Filter(table, (t: Row) => IsTopLevel(status, t)))
    ensures forall t :: t in r <==> t in table && t.parentId.None? && StatusSelects(status, t)
  {
    var rows := Filter(table, (t: Row) => IsTopLevel(status, t));
    SortIsPermutation(rows);
    var r := SortNewest(rows);
    assert forall t :: t in r <==> t in multiset(r);
    assert forall t :: t in rows <==> t in multiset(rows);
    r
  }

  // ---- tasksApi.list: assignees ----

  /** `[...new Set(xs)]`: first occurrences, in order. */
  function Dedup(xs: seq<string>): (r: seq<string>)
    ensures forall i, j :: 0 <= i < j < |r| ==> r[i] != r[j]
    ensures forall x :: x in r <==> x in xs
  {
    if xs == [] then []
    else
      var front := Dedup(xs[..|xs| - 1]);
      assert forall x :: x in xs <==> x in xs[..|xs| - 1] || x == xs[|xs| - 1];
      if xs[|xs| - 1] in front then front else front + [xs[|xs| - 1]]
  }

  function AssigneeTexts(data: seq<Row>): (r: seq<string>)
    ensures forall a :: a in r <==> exists t :: t in data && Truthy(t.assigneeId) && t.assigneeId.value == a
  {
    if data == [] then []
    else
      assert data == [data[0]] + data[1..];
      (if Truthy(data[0].assigneeId) then [data[0].assigneeId.value] else []) + AssigneeTexts(data[1..])
  }

  /** The assignee ids looked up: every truthy `assignee_id`, each once. */
  function AssigneeIds(data: seq<Row>): (r: seq<string>)
    ensures forall i, j :: 0 <= i < j < |r| ==> r[i] != r[j]
    ensures forall a :: a in r <==> exists t :: t in data && Truthy(t.assigneeId) && t.assigneeId.value == a
  {
    Dedup(AssigneeTexts(data))
  }

  /** `profiles.reduce((acc, p) => ({ ...acc, [p.id]: p }), {})`: a later profile wins over an earlier one. */
  function ProfileMap(profiles: seq<Profile>): (m: map<string, Profile>)
    ensures forall k :: k in m <==> exists p :: p in profiles && p.id == k
    ensures forall k :: k in m ==> m[k] in profiles && m[k].id == k
  {
    if profiles == [] then map[]
    else
      var init := profiles[..|profiles| - 1];
      var last := profiles[|profiles| - 1];
      assert profiles == init + [last];
      ProfileMap(init)[last.id := last]
  }

  /** A profile no later profile shares its id with is the one the map keeps. */
  lemma {:induction false} LaterProfileWins(profiles: seq<Profile>, i: nat)
    requires i < |profiles|
    requires forall j :: i < j < |profiles| ==> profiles[j].id != profiles[i].id
    ensures profiles[i].id in ProfileMap(profiles) && ProfileMap(profiles)[profiles[i].id] == profiles[i]
  {
    var init := profiles[..|profiles| - 1];
    if i < |profiles| - 1 {
      assert init[i] == profiles[i];
      LaterProfileWins(init, i);
    }
  }

  // ---- tasksApi.list: subtasks ----

  /** The property name a `parent_id` becomes when it indexes a plain object. */
  function Key(parent: Option<string>): string
  {
    if parent.None? then "null" else parent.value
  }

  /** The keys the fetched subtasks are filed under. */
  function ParentKeys(subtasks: seq<Row>): set<string>
  {
    if subtasks == [] then {}
    else ParentKeys(subtasks[..|subtasks| - 1]) + {Key(subtasks[|subtasks| - 1].parentId)}
  }

  lemma {:induction false} ParentKeysOccur(subtasks: seq<Row>)
    ensures forall k :: k in ParentKeys(subtasks) <==> exists s :: s in subtasks && Key(s.parentId) == k
  {
    if subtasks != [] {
      var init := subtasks[..|subtasks| - 1];
      ParentKeysOccur(init);
      assert subtasks == init + [subtasks[|subtasks| - 1]];
    }
  }

  /** The subtasks filed under `key`, in fetch order. */
  function Group(subtasks: seq<Row>, key: string): seq<Row>
  {
    if subtasks == [] then []
    else
      var last := subtasks[|subtasks| - 1];
      Group(subtasks[..|subtasks| - 1], key) + (if Key(last.parentId) == key then [last] else [])
  }

  /** A group holds exactly the fetched subtasks whose parent gives its key. */
  lemma {:induction false} GroupMembers(subtasks: seq<Row>, key: string)
    ensures forall x :: x in Group(subtasks, key) <==> x in subtasks && Key(x.parentId) == key
  {
    if subtasks != [] {
      var init := subtasks[..|subtasks| - 1];
      GroupMembers(init, key);
      assert subtasks == init + [subtasks[|subtasks| - 1]];
    }
  }

  lemma GroupStep(subtasks: seq<Row>, i: nat, key: string)
    requires i < |subtasks|
    ensures Group(subtasks[..i + 1], key)
      == Group(subtasks[..i], key) + (if Key(subtasks[i].parentId) == key then [subtasks[i]] else [])
    ensures ParentKeys(subtasks[..i + 1]) == ParentKeys(subtasks[..i]) + {Key(subtasks[i].parentId)}
  {
    assert subtasks[..i + 1][..i] == subtasks[..i];
  }

  lemma {:induction false} GroupEmpty(subtasks: seq<Row>, key: string)
    requires key !in ParentKeys(subtasks)
    ensures Group(subtasks, key) == []
  {
    if subtasks != [] {
      GroupEmpty(subtasks[..|subtasks| - 1], key);
    }
  }

  /**
   * The `subtasksMap` loop: each fetched subtask is pushed onto the list of its
   * `parent_id`, which is created on first use.
   */
  method GroupSubtasks(subtasks: seq<Row>) returns (m: map<string, seq<Row>>)
    ensures m.Keys == ParentKeys(subtasks)
    ensures forall k :: k in m <==> exists s :: s in subtasks && Key(s.parentId) == k
    ensures forall k :: k in m ==> m[k] == Group(subtasks, k)
  {
    m := map[];
    for i := 0 to |subtasks|
      invariant m.Keys == ParentKeys(subtasks[..i])
      invariant forall k :: k in m ==> m[k] == Group(subtasks[..i], k)
    {
      var st := subtasks[i];
      var k := Key(st.parentId);
      if k !in m {
        GroupEmpty(subtasks[..i], k);
        m := m[k := []];
      }
      forall key | key in m
        ensures Group(subtasks[..i + 1], key) == if key == k then m[k] + [st] else m[key]
      {
        GroupStep(subtasks, i, key);
      }
      GroupStep(subtasks, i, k);
      m := m[k := m[k] + [st]];
    }
    assert subtasks[..|subtasks|] == subtasks;
    ParentKeysOccur(subtasks);
  }

  /** Grouping keeps the fetch order, so fetched oldest first each group is oldest first. */
  lemma {:induction false} GroupKeepsOrder(subtasks: seq<Row>, key: string)
    requires OldestFirst(subtasks)
    ensures OldestFirst(Group(subtasks, key))
  {
    if subtasks != [] {
      var init := subtasks[..|subtasks| - 1];
      var last := subtasks[|subtasks| - 1];
      assert OldestFirst(init);
      GroupKeepsOrder(init, key);
      GroupMembers(init, key);
      forall x | x in Group(init, key)
        ensures x.createdAt <= last.createdAt
      {
        var i :| 0 <= i < |init| && init[i] == x;
      }
    }
  }

  /** Every subtask sits in the group of its own parent and in no other. */
  lemma GroupedUnderOwnParent(subtasks: seq<Row>, s: Row, key: string)
    requires s in subtasks
    ensures s in Group(subtasks, Key(s.parentId))
    ensures key != Key(s.parentId) ==> s !in Group(subtasks, key)
  {
    GroupMembers(subtasks, Key(s.parentId));
    GroupMembers(subtasks, key);
  }

  // ---- tasksApi.list: formatting ----

  function CountCompleted(s: seq<Row>): (r: nat)
    ensures r <= |s|
    ensures r == |Filter(s, (t: Row) => t.completed)|
  {
    if s == [] then 0 else (if s[0].completed then 1 else 0) + CountCompleted(s[1..])
  }

  /**
   * `Math.round((done / total) * 100)`, or null without subtasks; computed on
   * integers as round-half-up of 100 * done / total.
   */
  function Progress(done: nat, total: nat): (r: Option<int>)
    requires done <= total
    ensures r.None? <==> total == 0
    ensures r.Some? ==> 0 <= r.value <= 100
    ensures r.Some? ==> r.value * 2 * total <= 200 * done + total < (r.value + 1) * 2 * total
  {
    if total == 0 then None
    else
      var q := (200 * done + total) / (2 * total);
      Quotient(200 * done + total, 2 * total);
      assert q <= 100 by {
        if q > 100 {
          MulMonotone(101, q, 2 * total);
        }
      }
      Some(q)
  }

  lemma Quotient(a: nat, d: nat)
    requires d > 0
    ensures (a / d) * d <= a < (a / d + 1) * d
  {
  }

  lemma MulMonotone(a: int, b: int, d: nat)
    requires a <= b
    ensures a * d <= b * d
  {
  }

  lemma QuotientUnique(a: nat, d: nat, q: nat)
    requires d > 0 && q * d <= a < (q + 1) * d
    ensures a / d == q
  {
    Quotient(a, d);
    if a / d < q {
      MulMonotone(a / d + 1, q, d);
    } else if a / d > q {
      MulMonotone(q + 1, a / d, d);
    }
  }

  /** No subtask done is 0 per cent, all done is 100 per cent. */
  lemma ProgressBounds(total: nat)
    requires total > 0
    ensures Progress(0, total) == Some(0) && Progress(total, total) == Some(100)
  {
    QuotientUnique(total, 2 * total, 0);
    QuotientUnique(200 * total + total, 2 * total, 100);
  }

  /** One task of the list response. */
  datatype Listed = Listed(task: Row, commentsCount: nat, assignee: Option<Profile>,
                           subtasks: seq<Row>, subtasksCount: nat, completedSubtasks: nat,
                           progress: Option<int>)

  /** The `map` over the fetched tasks. */
  function FormatTask(t: Row, groups: map<string, seq<Row>>, assignees: map<string, Profile>): (v: Listed)
    ensures v.task == t && v.commentsCount == 0
    ensures v.subtasks == (if t.id in groups then groups[t.id] else [])
    ensures v.subtasksCount == |v.subtasks| && v.completedSubtasks <= v.subtasksCount
    ensures v.completedSubtasks == |Filter(v.subtasks, (s: Row) => s.completed)|
    ensures v.progress.None? <==> v.subtasksCount == 0
    ensures v.progress.Some? ==> 0 <= v.progress.value <= 100
    ensures v.assignee.Some? <==> Truthy(t.assigneeId) && t.assigneeId.value in assignees
    ensures v.assignee.Some? ==> v.assignee.value == assignees[t.assigneeId.value]
  {
    var subtasks := if t.id in groups then groups[t.id] else [];
    var done := CountCompleted(subtasks);
    Listed(t, 0,
           if Truthy(t.assigneeId) && t.assigneeId.value in assignees then Some(assignees[t.assigneeId.value]) else None,
           subtasks, |subtasks|, done, Progress(done, |subtasks|))
  }

  /** The body of `list`: the tasks and `meta.total_count`. */
  datatype ListResult = ListResult(tasks: seq<Listed>, totalCount: nat)

  /**
   * `tasksApi.list` after its queries: `data` the top-level rows, `profiles`
   * the assignee lookup and `subtasks` the subtask fetch.
   */
  method List(data: seq<Row>, profiles: seq<Profile>, subtasks: seq<Row>) returns (r: ListResult)
    ensures r.totalCount == |r.tasks| == |data|
    ensures forall i :: 0 <= i < |data| ==> r.tasks[i].task == data[i]
    ensures forall i :: 0 <= i < |data| ==> r.tasks[i].subtasks == Group(subtasks, data[i].id)
    ensures forall i :: 0 <= i < |data| && r.tasks[i].assignee.Some? ==>
      && Truthy(data[i].assigneeId)
      && r.tasks[i].assignee.value in profiles && r.tasks[i].assignee.value.id == data[i].assigneeId.value
    ensures forall i :: 0 <= i < |data| && Truthy(data[i].assigneeId)
                        && (exists p :: p in profiles && p.id == data[i].assigneeId.value) ==>
      r.tasks[i].assignee.Some?
    ensures forall i :: 0 <= i < |data| ==>
      && r.tasks[i].commentsCount == 0
      && r.tasks[i].subtasksCount == |r.tasks[i].subtasks|
      && r.tasks[i].completedSubtasks == |Filter(r.tasks[i].subtasks, (s: Row) => s.completed)|
      && (r.tasks[i].progress.None? <==> r.tasks[i].subtasks == [])
      && r.tasks[i].progress == Progress(r.tasks[i].completedSubtasks, r.tasks[i].subtasksCount)
  {
    var ids := AssigneeIds(data);
    var assignees: map<string, Profile> := map[];
    if |ids| > 0 {
      assignees := ProfileMap(profiles);
    }
    var groups: map<string, seq<Row>> := map[];
    if |data| > 0 {
      groups := GroupSubtasks(subtasks);
    }
    var tasks := seq(|data|, i requires 0 <= i < |data| => FormatTask(data[i], groups, assignees));
    forall i | 0 <= i < |data|
      ensures tasks[i].subtasks == Group(subtasks, data[i].id)
    {
      if data[i].id !in groups {
        GroupEmpty(subtasks, data[i].id);
      }
    }
    forall i | 0 <= i < |data| && Truthy(data[i].assigneeId)
                 && (exists p :: p in profiles && p.id == data[i].assigneeId.value)
      ensures tasks[i].assignee.Some?
    {
      assert data[i].assigneeId.value in ids;
      assert data[i].assigneeId.value in assignees;
    }
    r := ListResult(tasks, |tasks|);
  }

  // ---- generateInviteCode ----

  const InviteChars := "ABCDEFGHIJKLMNOPQRSTUVWXYZ0123456789"

  /** The character a roll of `Math.random()` picks. */
  function Pick(roll: real): (c: char)
    requires 0.0 <= roll < 1.0
    ensures CoupleModel.IsInviteChar(c)
  {
    var i := (roll * (|InviteChars| as real)).Floor;
    assert 0 <= i < |InviteChars|;
    InviteChars[i]
  }

  /** `generateInviteCode`, with the eight values `Math.random()` returns as input. */
  method GenerateInviteCode(rolls: seq<real>) returns (code: string)
    requires |rolls| == CoupleModel.InviteCodeLength
    requires forall i :: 0 <= i < |rolls| ==> 0.0 <= rolls[i] < 1.0
    ensures CoupleModel.WellFormedCode(code)
    ensures forall i :: 0 <= i < |code| ==> code[i] == Pick(rolls[i])
  {
    code := "";
    for i := 0 to CoupleModel.InviteCodeLength
      invariant |code| == i
      invariant forall j :: 0 <= j < i ==> code[j] == Pick(rolls[j])
    {
      code := code + [Pick(rolls[i])];
    }
  }

  // ---- tasksApi.create ----

  /** What the task form passes to `create`. */
  datatype NewTask = NewTask(title: Option<string>, description: Option<string>, dueDate: Option<string>,
                             assigneeId: Option<string>, parentId: Option<string>,
                             category: Option<string>, priority: Option<int>)

  /** The object `create` inserts: exactly these six columns. */
  datatype Insert = Insert(title: Option<string>, description: Option<string>, dueDate: Option<string>,
                           coupleId: Option<string>, assigneeId: Option<string>, parentId: Option<string>)

  /** `x || null` on a nullable text value. */
  function OrNull(s: Option<string>): (r: Option<string>)
    ensures r.Some? <==> Truthy(s)
    ensures r.Some? ==> r == s
  {
    if Truthy(s) then s else None
  }

  function CreatePayload(data: NewTask, profileCouple: Option<string>): (r: Insert)
    ensures r.title == data.title
    ensures r.description == OrNull(data.description) && r.dueDate == OrNull(data.dueDate)
    ensures r.coupleId == OrNull(profileCouple)
    ensures r.assigneeId == OrNull(data.assigneeId) && r.parentId == OrNull(data.parentId)
  {
    Insert(data.title, OrNull(data.description), OrNull(data.dueDate), OrNull(profileCouple),
           OrNull(data.assigneeId), OrNull(data.parentId))
  }

  // ---- tasksApi.update ----

  /** A property of the `data` object: missing (`undefined`) or given, possibly as null. */
  datatype Field<T> = Undefined | Given(value: T)

  datatype Changes = Changes(title: Field<Option<string>>, description: Field<Option<string>>,
                             dueDate: Field<Option<string>>, assigneeId: Field<Option<string>>,
                             completed: Field<bool>, category: Field<Option<string>>,
                             priority: Field<Option<int>>)

  datatype Column = TitleColumn | DescriptionColumn | DueDateColumn | AssigneeColumn | CompletedColumn

  datatype Value = TextValue(text: Option<string>) | FlagValue(flag: bool)

  /** `updateData` holds a column exactly when its field is given, with the given value. */
  predicate Describes(u: map<Column, Value>, c: Changes)
  {
    && (TitleColumn in u <==> c.title.Given?) && (c.title.Given? ==> u[TitleColumn] == TextValue(c.title.value))
    && (DescriptionColumn in u <==> c.description.Given?)
    && (c.description.Given? ==> u[DescriptionColumn] == TextValue(c.description.value))
    && (DueDateColumn in u <==> c.dueDate.Given?) && (c.dueDate.Given? ==> u[DueDateColumn] == TextValue(c.dueDate.value))
    && (AssigneeColumn in u <==> c.assigneeId.Given?)
    && (c.assigneeId.Given? ==> u[AssigneeColumn] == TextValue(c.assigneeId.value))
    && (CompletedColumn in u <==> c.completed.Given?)
    && (c.completed.Given? ==> u[CompletedColumn] == FlagValue(c.completed.value))
  }

  /** Building `updateData` field by field. */
  method BuildUpdateData(c: Changes) returns (u: map<Column, Value>)
    ensures Describes(u, c)
  {
    u := map[];
    if c.title.Given? {
      u := u[TitleColumn := TextValue(c.title.value)];
    }
    if c.description.Given? {
      u := u[DescriptionColumn := TextValue(c.description.value)];
    }
    if c.dueDate.Given? {
      u := u[DueDateColumn := TextValue(c.dueDate.value)];
    }
    if c.assigneeId.Given? {
      u := u[AssigneeColumn := TextValue(c.assigneeId.value)];
    }
    if c.completed.Given? {
      u := u[CompletedColumn := FlagValue(c.completed.value)];
    }
  }

  function TextOr(u: map<Column, Value>, col: Column, current: Option<string>): Option<string>
  {
    if col in u && u[col].TextValue? then u[col].text else current
  }

  /** `.update(updateData)` on the row. */
  function ApplyUpdate(t: Row, u: map<Column, Value>): Row
  {
    t.(title := TextOr(u, TitleColumn, t.title),
       description := TextOr(u, DescriptionColumn, t.description),
       dueDate := TextOr(u, DueDateColumn, t.dueDate),
       assigneeId := TextOr(u, AssigneeColumn, t.assigneeId),
       completed := if CompletedColumn in u && u[CompletedColumn].FlagValue? then u[CompletedColumn].flag else t.completed)
  }

  /**
   * An update writes exactly the given fields among the five it knows; category
   * and priority are never sent, and every other column stays.
   */
  lemma UpdateWritesOnlyGiven(t: Row, c: Changes, u: map<Column, Value>)
    requires Describes(u, c)
    ensures var r := ApplyUpdate(t, u);
      && r.title == (if c.title.Given? then c.title.value else t.title)
      && r.description == (if c.description.Given? then c.description.value else t.description)
      && r.dueDate == (if c.dueDate.Given? then c.dueDate.value else t.dueDate)
      && r.assigneeId == (if c.assigneeId.Given? then c.assigneeId.value else t.assigneeId)
      && r.completed == (if c.completed.Given? then c.completed.value else t.completed)
      && r.category == t.category && r.priority == t.priority
      && r.id == t.id && r.coupleId == t.coupleId && r.parentId == t.parentId && r.createdAt == t.createdAt
  {
  }

  // ---- couplesApi.join ----

  datatype JoinError = CodeNotFound | SelfPairing | CoupleCreateFailed | PairingFailed

  /** The decision `join` reaches from the profile query and the caller's id. */
  datatype JoinPlan = Refuse(error: JoinError) | UseCouple(partner: Profile, couple: string) | CreateCouple(partner: Profile)

  function CodeMatches(profiles: seq<Profile>, code: string): (r: seq<Profile>)
    ensures forall p :: p in r <==> p in profiles && p.inviteCode == Some(Upcase(code))
  {
    Filter(profiles, (p: Profile) => p.inviteCode == Some(Upcase(code)))
  }

  /**
   * `.single()` fails unless exactly one profile carries the upper-cased code;
   * pairing with oneself is refused; a partner without a couple needs one
   * created. Nothing looks at how many members the partner's couple has.
   */
  function JoinDecision(profiles: seq<Profile>, me: string, code: string): (d: JoinPlan)
    ensures d == Refuse(CodeNotFound) <==> |CodeMatches(profiles, code)| != 1
    ensures d == Refuse(SelfPairing) <==> |CodeMatches(profiles, code)| == 1 && CodeMatches(profiles, code)[0].id == me
    ensures d.Refuse? ==> d.error == CodeNotFound || d.error == SelfPairing
    ensures !d.Refuse? ==> && |CodeMatches(profiles, code)| == 1 && d.partner == CodeMatches(profiles, code)[0]
                           && d.partner in profiles && d.partner.inviteCode == Some(Upcase(code))
                           && d.partner.id != me
    ensures d.UseCouple? <==> !d.Refuse? && Truthy(d.partner.coupleId)
    ensures d.UseCouple? ==> Some(d.couple) == d.partner.coupleId
  {
    var matches := CodeMatches(profiles, code);
    if |matches| != 1 then Refuse(CodeNotFound)
    else if matches[0].id == me then Refuse(SelfPairing)
    else if Truthy(matches[0].coupleId) then UseCouple(matches[0], matches[0].coupleId.value)
    else CreateCouple(matches[0])
  }

  /** An own couple does not stop a pairing: the decision ignores the caller's row entirely. */
  lemma DecisionIgnoresCallersCouple(profiles: seq<Profile>, me: string, code: string, other: seq<Profile>)
    requires forall p :: p in profiles && p.id != me <==> p in other && p.id != me
    requires forall p :: p in profiles && p.id == me ==> p.inviteCode != Some(Upcase(code))
    requires forall p :: p in other && p.id == me ==> p.inviteCode != Some(Upcase(code))
    ensures CodeMatches(profiles, code) != [] <==> CodeMatches(other, code) != []
  {
    if CodeMatches(profiles, code) != [] {
      assert CodeMatches(profiles, code)[0] in CodeMatches(other, code);
    }
    if CodeMatches(other, code) != [] {
      assert CodeMatches(other, code)[0] in CodeMatches(profiles, code);
    }
  }

  /** `.update({ couple_id }).eq('id', id)` on the profiles. */
  function SetCouple(profiles: seq<Profile>, id: string, couple: string): (r: seq<Profile>)
    ensures |r| == |profiles|
    ensures forall i :: 0 <= i < |r| ==>
      r[i] == if profiles[i].id == id then profiles[i].(coupleId := Some(couple)) else profiles[i]
  {
    seq(|profiles|, i requires 0 <= i < |profiles| =>
      if profiles[i].id == id then profiles[i].(coupleId := Some(couple)) else profiles[i])
  }

  /** Setting a couple distributes over a concatenation of profile lists. */
  lemma SetCoupleAppend(a: seq<Profile>, b: seq<Profile>, id: string, c: string)
    ensures SetCouple(a + b, id, c) == SetCouple(a, id, c) + SetCouple(b, id, c)
  {
    assert forall i :: 0 <= i < |a + b| ==> (a + b)[i] == if i < |a| then a[i] else b[i - |a|];
  }

  /** Setting the caller's couple before the lookup sets it on the matches, and leaves their order. */
  lemma {:induction false} MatchesAfterSetCouple(profiles: seq<Profile>, me: string, code: string, c: string)
    ensures CodeMatches(SetCouple(profiles, me, c), code) == SetCouple(CodeMatches(profiles, code), me, c)
  {
    if profiles != [] {
      var first, rest := [profiles[0]], profiles[1..];
      assert profiles == first + rest;
      SetCoupleAppend(first, rest, me, c);
      var keep := (p: Profile) => p.inviteCode == Some(Upcase(code));
      FilterAppend(SetCouple(first, me, c), SetCouple(rest, me, c), keep);
      FilterAppend(first, rest, keep);
      MatchesAfterSetCouple(rest, me, code, c);
      SetCoupleAppend(Filter(first, keep), Filter(rest, keep), me, c);
      MatchAfterSetCouple(profiles[0], me, code, c);
    }
  }

  lemma MatchAfterSetCouple(p: Profile, me: string, code: string, c: string)
    ensures CodeMatches(SetCouple([p], me, c), code) == SetCouple(CodeMatches([p], code), me, c)
  {
    assert SetCouple([p], me, c) == [SetCouple([p], me, c)[0]];
  }

  /** Whatever couple the caller's own row holds, `join` decides the same way and picks the same partner. */
  lemma DecisionIgnoresCallersCoupleId(profiles: seq<Profile>, me: string, code: string, c: string)
    ensures JoinDecision(SetCouple(profiles, me, c), me, code) == JoinDecision(profiles, me, code)
  {
    MatchesAfterSetCouple(profiles, me, code, c);
  }

  /**
   * After the two profile updates of a pairing with a new couple, and after the
   * caller's update alone when the partner already had the couple, every row of
   * the caller and of the partner holds the same couple id.
   */
  lemma PairedRowsShareCouple(profiles: seq<Profile>, me: string, partner: string, c: string)
    ensures forall p :: p in SetCouple(SetCouple(profiles, partner, c), me, c) && (p.id == me || p.id == partner) ==>
      p.coupleId == Some(c)
    ensures (forall p :: p in profiles && p.id == partner ==> p.coupleId == Some(c)) ==>
      forall p :: p in SetCouple(profiles, me, c) && (p.id == me || p.id == partner) ==> p.coupleId == Some(c)
  {
    var both := SetCouple(SetCouple(profiles, partner, c), me, c);
    forall p | p in both && (p.id == me || p.id == partner)
      ensures p.coupleId == Some(c)
    {
      var i :| 0 <= i < |both| && both[i] == p;
    }
    if forall p :: p in profiles && p.id == partner ==> p.coupleId == Some(c) {
      var mine := SetCouple(profiles, me, c);
      forall p | p in mine && (p.id == me || p.id == partner)
        ensures p.coupleId == Some(c)
      {
        var i :| 0 <= i < |mine| && mine[i] == p;
        assert profiles[i] in profiles;
      }
    }
  }

  /** A row of the client's `couples` table. */
  datatype CoupleRow = CoupleRow(id: string, inviteCode: string)

  /**
   * The client's view of the two tables `join` writes. The outcomes of the
   * writes (whether the couple insert, the partner update and the caller update
   * fail, and the id the new couple gets) come in as inputs.
   */
  class Tables {
    var profiles: seq<Profile>
    var couples: seq<CoupleRow>

    constructor(profiles: seq<Profile>, couples: seq<CoupleRow>)
      ensures this.profiles == profiles && this.couples == couples
    {
      this.profiles := profiles;
      this.couples := couples;
    }

    /** `couplesApi.join`, update by update. */
    method Join(me: string, code: string, newCouple: string, insertFails: bool,
                partnerUpdateFails: bool, selfUpdateFails: bool) returns (r: Result<string>)
      modifies this
      ensures var d := JoinDecision(old(profiles), me, code);
        match d
        case Refuse(e) => r == Fail(e) && profiles == old(profiles) && couples == old(couples)
        case UseCouple(partner, c) =>
          && couples == old(couples)
          && profiles == (if selfUpdateFails then old(profiles) else SetCouple(old(profiles), me, c))
          && (r.Ok? <==> !selfUpdateFails) && (r.Ok? ==> r.value == partner.name)
          && (selfUpdateFails ==> r == Fail(PairingFailed))
        case CreateCouple(partner) =>
          if insertFails then r == Fail(CoupleCreateFailed) && profiles == old(profiles) && couples == old(couples)
          else
            var afterPartner := if partnerUpdateFails then old(profiles) else SetCouple(old(profiles), partner.id, newCouple);
            && couples == old(couples) + [CoupleRow(newCouple, Upcase(code))]
            && profiles == (if selfUpdateFails then afterPartner else SetCouple(afterPartner, me, newCouple))
            && (r.Ok? <==> !selfUpdateFails) && (r.Ok? ==> r.value == partner.name)
            && (selfUpdateFails ==> r == Fail(PairingFailed))
    {
      var d := JoinDecision(profiles, me, code);
      if d.Refuse? {
        return Fail(d.error);
      }
      var coupleId: string;
      if d.UseCouple? {
        coupleId := d.couple;
      } else {
        if insertFails {
          return Fail(CoupleCreateFailed);
        }
        couples := couples + [CoupleRow(newCouple, Upcase(code))];
        coupleId := newCouple;
        if !partnerUpdateFails {
          profiles := SetCouple(profiles, d.partner.id, coupleId);
        }
      }
      if selfUpdateFails {
        return Fail(PairingFailed);
      }
      profiles := SetCouple(profiles, me, coupleId);
      r := Ok(d.partner.name);
    }
  }

  /** The result of a client call: a value or the error it throws. */
  datatype Result<T> = Ok(value: T) | Fail(error: JoinError)
}
