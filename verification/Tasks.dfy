/** Cutting the chunks a pass works on into tasks, and the tasks into groups of equal size. */
module Tasks {

  datatype ChunkRef = ChunkRef(id: nat, count: nat)

  datatype Task = Task(gid: nat, chunk: nat, start: nat, count: nat, indexInKernel: nat)

  /** Tasks first..end of the result. */
  datatype Group = Group(first: nat, end: nat)

  /** Row number `index` of a chunk of the gid-th archetype. */
  datatype Row = Row(gid: nat, chunk: nat, index: nat)

  function Span(gid: nat, chunk: nat, start: nat, count: nat): (rs: seq<Row>)
    ensures |rs| == count && forall i :: 0 <= i < count ==> rs[i] == Row(gid, chunk, start + i)
  {
    seq(count, i requires 0 <= i < count => Row(gid, chunk, start + i))
  }

  /** The rows of an archetype's chunks, in order. */
  function ArchRows(gid: nat, chunks: seq<ChunkRef>): seq<Row> {
    if chunks == [] then []
    else ArchRows(gid, chunks[..|chunks| - 1]) + Span(gid, chunks[|chunks| - 1].id, 0, chunks[|chunks| - 1].count)
  }

  /** All rows a pass must process, in order. */
  function AllRows(matched: seq<seq<ChunkRef>>): seq<Row> {
    if matched == [] then []
    else AllRows(matched[..|matched| - 1]) + ArchRows(|matched| - 1, matched[|matched| - 1])
  }

  function RowsOf(t: Task): seq<Row> {
    Span(t.gid, t.chunk, t.start, t.count)
  }

  function TaskRows(tasks: seq<Task>): seq<Row> {
    if tasks == [] then [] else TaskRows(tasks[..|tasks| - 1]) + RowsOf(tasks[|tasks| - 1])
  }

  function Total(tasks: seq<Task>): nat {
    if tasks == [] then 0 else Total(tasks[..|tasks| - 1]) + tasks[|tasks| - 1].count
  }

  /** Group g begins where the one before it ends, and is full. */
  predicate GroupOk(tasks: seq<Task>, groups: seq<Group>, batchCount: nat, g: nat)
    requires g < |groups|
  {
    && groups[g].first == (if g == 0 then 0 else groups[g - 1].end)
    && groups[g].first < groups[g].end <= |tasks|
    && Total(tasks[groups[g].first..groups[g].end]) == batchCount
  }

  predicate FullGroups(tasks: seq<Task>, groups: seq<Group>, batchCount: nat) {
    forall g {:trigger GroupOk(tasks, groups, batchCount, g)} :: 0 <= g < |groups| ==>
      GroupOk(tasks, groups, batchCount, g)
  }

  function Covered(groups: seq<Group>): nat {
    if groups == [] then 0 else groups[|groups| - 1].end
  }

  /** Every task has rows, and its index is the number of rows in the tasks before it. */
  predicate Indexed(tasks: seq<Task>) {
    forall j :: 0 <= j < |tasks| ==> tasks[j].count > 0 && tasks[j].indexInKernel == Total(tasks[..j])
  }

  /** Some group ends in front of task j. */
  predicate BeginsGroup(groups: seq<Group>, j: nat) {
    exists g :: 0 <= g < |groups| && groups[g].end == j
  }

  /** A chunk is cut only where a group is full: a task that begins inside its chunk begins a group. */
  predicate Unbroken(tasks: seq<Task>, groups: seq<Group>) {
    forall j {:trigger tasks[j]} :: 0 <= j < |tasks| && tasks[j].start > 0 ==> BeginsGroup(groups, j)
  }

  lemma UnbrokenMore(tasks: seq<Task>, groups: seq<Group>, g: Group)
    requires Unbroken(tasks, groups)
    ensures Unbroken(tasks, groups + [g])
  {
    forall j | 0 <= j < |tasks| && tasks[j].start > 0 ensures BeginsGroup(groups + [g], j) {
      var i :| 0 <= i < |groups| && groups[i].end == j;
      assert (groups + [g])[i].end == j;
    }
  }

  /** The state of the cutter: the open group begins behind the full ones and has room for `batch` more rows. */
  predicate Cut(tasks: seq<Task>, groups: seq<Group>, batchCount: nat, batch: nat, index: nat) {
    && Indexed(tasks) && index == Total(tasks)
    && FullGroups(tasks, groups, batchCount) && Covered(groups) <= |tasks|
    && batch <= batchCount && Total(tasks[Covered(groups)..]) == batchCount - batch && Unbroken(tasks, groups)
  }

  lemma TotalAppend(tasks: seq<Task>, t: Task)
    ensures Total(tasks + [t]) == Total(tasks) + t.count
    ensures TaskRows(tasks + [t]) == TaskRows(tasks) + RowsOf(t)
  {
    assert (tasks + [t])[..|tasks|] == tasks;
  }

  lemma IndexedMore(tasks: seq<Task>, t: Task)
    requires Indexed(tasks) && t.count > 0 && t.indexInKernel == Total(tasks)
    ensures Indexed(tasks + [t])
  {
    var tasks' := tasks + [t];
    forall j | 0 <= j < |tasks'| ensures tasks'[j].count > 0 && tasks'[j].indexInKernel == Total(tasks'[..j]) {
      assert tasks'[..j] == tasks[..j];
    }
  }

  lemma GroupsStay(tasks: seq<Task>, more: seq<Task>, groups: seq<Group>, batchCount: nat)
    requires FullGroups(tasks, groups, batchCount)
    ensures FullGroups(tasks + more, groups, batchCount)
  {
    forall g | 0 <= g < |groups| ensures GroupOk(tasks + more, groups, batchCount, g) {
      assert GroupOk(tasks, groups, batchCount, g);
      assert (tasks + more)[groups[g].first..groups[g].end] == tasks[groups[g].first..groups[g].end];
    }
  }

  lemma CutMore(tasks: seq<Task>, groups: seq<Group>, batchCount: nat, batch: nat, index: nat, t: Task)
    requires Cut(tasks, groups, batchCount, batch, index) && 0 < t.count <= batch && t.indexInKernel == index
    requires t.start > 0 ==> groups != [] && Covered(groups) == |tasks|
    ensures Cut(tasks + [t], groups, batchCount, batch - t.count, index + t.count)
  {
    var b := Covered(groups);
    TotalAppend(tasks, t);
    TotalAppend(tasks[b..], t);
    assert (tasks + [t])[b..] == tasks[b..] + [t];
    IndexedMore(tasks, t);
    GroupsStay(tasks, [t], groups, batchCount);
  }

  /** A group without room left is closed. */
  lemma CloseGroup(tasks: seq<Task>, groups: seq<Group>, batchCount: nat, index: nat)
    requires batchCount > 0 && Cut(tasks, groups, batchCount, 0, index)
    ensures Cut(tasks, groups + [Group(Covered(groups), |tasks|)], batchCount, batchCount, index)
  {
    var b, groups' := Covered(groups), groups + [Group(Covered(groups), |tasks|)];
    assert tasks[b..|tasks|] == tasks[b..] && tasks[|tasks|..] == [];
    UnbrokenMore(tasks, groups, Group(b, |tasks|));
    forall g | 0 <= g < |groups'| ensures GroupOk(tasks, groups', batchCount, g) {
      if g < |groups| {
        assert GroupOk(tasks, groups, batchCount, g);
      }
    }
  }

  lemma FirstGroups(tasks: seq<Task>, groups: seq<Group>, batchCount: nat)
    requires FullGroups(tasks, groups, batchCount) && groups != []
    ensures FullGroups(tasks, groups[..|groups| - 1], batchCount)
    ensures GroupOk(tasks, groups, batchCount, |groups| - 1)
    ensures groups[|groups| - 1].first == Covered(groups[..|groups| - 1])
  {
    var front := groups[..|groups| - 1];
    forall g | 0 <= g < |front| ensures GroupOk(tasks, front, batchCount, g) {
      assert GroupOk(tasks, groups, batchCount, g);
    }
    assert GroupOk(tasks, groups, batchCount, |groups| - 1);
  }

  /**
   The tasks cover the rows of all chunks exactly once and in order, none is empty, none leaves its chunk, and
   none is shorter than its group and its chunk allow; the groups partition the tasks, all full but the last,
   which is not empty.
   */
  ghost predicate Split(matched: seq<seq<ChunkRef>>, batchCount: nat, tasks: seq<Task>, groups: seq<Group>) {
    && TaskRows(tasks) == AllRows(matched) && Indexed(tasks) && Unbroken(tasks, groups)
    && Covered(groups) == |tasks|
    && (if groups == [] then tasks == [] else
          var n := |groups| - 1;
          && FullGroups(tasks, groups[..n], batchCount)
          && groups[n].first == Covered(groups[..n]) < groups[n].end
          && 0 < Total(tasks[groups[n].first..]) <= batchCount)
  }

  /** create_tasks, given the chunks that the queries of its archetypes return */
  method CreateTasks(matched: seq<seq<ChunkRef>>, batchCount: nat) returns (result: seq<Task>, groups: seq<Group>)
    requires batchCount > 0
    ensures Split(matched, batchCount, result, groups)
  {
    var indexInKernel, batch := 0, batchCount;
    result, groups := [], [];
    var group := Group(0, 0);
    var i := 0;
    while i < |matched|
      invariant 0 <= i <= |matched|
      invariant batch > 0 && Cut(result, groups, batchCount, batch, indexInKernel)
      invariant group == Group(Covered(groups), Covered(groups))
      invariant TaskRows(result) == AllRows(matched[..i])
    {
      result, groups, group, batch, indexInKernel :=
        CutArchetype(i, matched[i], batchCount, result, groups, group, batch, indexInKernel, AllRows(matched[..i]));
      assert matched[..i + 1][..i] == matched[..i];
      i := i + 1;
    }
    assert matched[..i] == matched;
    if group.end != |result| {
      CloseLast(matched, result, groups, batchCount, batch, indexInKernel);
      group := group.(end := |result|);
      groups := groups + [group];
    } else {
      AllClosed(matched, result, groups, batchCount, batch, indexInKernel);
    }
  }

  lemma CloseLast(matched: seq<seq<ChunkRef>>, tasks: seq<Task>, groups: seq<Group>, batchCount: nat, batch: nat,
                  index: nat)
    requires Cut(tasks, groups, batchCount, batch, index) && Covered(groups) < |tasks|
    requires TaskRows(tasks) == AllRows(matched)
    ensures Split(matched, batchCount, tasks, groups + [Group(Covered(groups), |tasks|)])
  {
    var rest, groups' := tasks[Covered(groups)..], groups + [Group(Covered(groups), |tasks|)];
    assert rest[|rest| - 1] == tasks[|tasks| - 1];
    assert groups'[..|groups|] == groups;
    UnbrokenMore(tasks, groups, groups'[|groups|]);
  }

  lemma AllClosed(matched: seq<seq<ChunkRef>>, tasks: seq<Task>, groups: seq<Group>, batchCount: nat, batch: nat,
                  index: nat)
    requires Cut(tasks, groups, batchCount, batch, index) && Covered(groups) == |tasks|
    requires TaskRows(tasks) == AllRows(matched)
    requires batchCount > 0
    ensures Split(matched, batchCount, tasks, groups)
  {
    if groups != [] {
      FirstGroups(tasks, groups, batchCount);
      var n := |groups| - 1;
      assert tasks[groups[n].first..groups[n].end] == tasks[groups[n].first..];
    }
  }

  lemma {:induction false} OneChunkMore(before: seq<Row>, gid: nat, chunks: seq<ChunkRef>, c: nat)
    requires c < |chunks|
    ensures before + ArchRows(gid, chunks[..c + 1])
            == before + ArchRows(gid, chunks[..c]) + Span(gid, chunks[c].id, 0, chunks[c].count)
  {
    assert chunks[..c + 1][..c] == chunks[..c];
  }

  /** The chunks of one archetype. */
  method CutArchetype(gid: nat, chunks: seq<ChunkRef>, batchCount: nat, tasks: seq<Task>, groups0: seq<Group>,
                      group0: Group, batch0: nat, index0: nat, ghost before: seq<Row>)
    returns (result: seq<Task>, groups: seq<Group>, group: Group, batch: nat, index: nat)
    requires batch0 > 0 && Cut(tasks, groups0, batchCount, batch0, index0)
    requires group0 == Group(Covered(groups0), Covered(groups0))
    requires TaskRows(tasks) == before
    ensures batch > 0 && Cut(result, groups, batchCount, batch, index)
    ensures group == Group(Covered(groups), Covered(groups))
    ensures TaskRows(result) == before + ArchRows(gid, chunks)
  {
    result, groups, group, batch, index := tasks, groups0, group0, batch0, index0;
    var c := 0;
    while c < |chunks|
      invariant 0 <= c <= |chunks|
      invariant batch > 0 && Cut(result, groups, batchCount, batch, index)
      invariant group == Group(Covered(groups), Covered(groups))
      invariant TaskRows(result) == before + ArchRows(gid, chunks[..c])
    {
      ghost var done := before + ArchRows(gid, chunks[..c]);
      result, groups, group, batch, index :=
        CutChunk(gid, chunks[c], batchCount, result, groups, group, batch, index, done);
      OneChunkMore(before, gid, chunks, c);
      c := c + 1;
    }
    assert chunks[..c] == chunks;
  }

  lemma RowsMore(tasks: seq<Task>, t: Task, before: seq<Row>)
    requires TaskRows(tasks) == before + Span(t.gid, t.chunk, 0, t.start)
    ensures TaskRows(tasks + [t]) == before + Span(t.gid, t.chunk, 0, t.start + t.count)
  {
    TotalAppend(tasks, t);
    var l, r, all := Span(t.gid, t.chunk, 0, t.start), RowsOf(t), Span(t.gid, t.chunk, 0, t.start + t.count);
    assert l + r == all;
    assert (before + l) + r == before + (l + r);
  }

  /** One chunk: slices of it, each as large as the open group and the chunk allow. */
  method CutChunk(gid: nat, chunk: ChunkRef, batchCount: nat, tasks: seq<Task>, groups0: seq<Group>, group0: Group,
                  batch0: nat, index0: nat, ghost before: seq<Row>)
    returns (result: seq<Task>, groups: seq<Group>, group: Group, batch: nat, index: nat)
    requires batch0 > 0 && Cut(tasks, groups0, batchCount, batch0, index0)
    requires group0 == Group(Covered(groups0), Covered(groups0))
    requires TaskRows(tasks) == before
    ensures batch > 0 && Cut(result, groups, batchCount, batch, index)
    ensures group == Group(Covered(groups), Covered(groups))
    ensures TaskRows(result) == before + Span(gid, chunk.id, 0, chunk.count)
  {
    result, groups, group, batch, index := tasks, groups0, group0, batch0, index0;
    var taken := 0;
    while taken != chunk.count
      invariant 0 <= taken <= chunk.count
      invariant batch > 0 && Cut(result, groups, batchCount, batch, index)
      invariant group == Group(Covered(groups), Covered(groups))
      invariant TaskRows(result) == before + Span(gid, chunk.id, 0, taken)
      invariant 0 < taken < chunk.count ==> groups != [] && Covered(groups) == |result|
      decreases chunk.count - taken
    {
      var sliceCount := if chunk.count - taken < batch then chunk.count - taken else batch;
      var newTask := Task(gid, chunk.id, taken, sliceCount, index);
      CutMore(result, groups, batchCount, batch, index, newTask);
      RowsMore(result, newTask, before);
      taken := taken + sliceCount;
      index := index + sliceCount;
      batch := batch - sliceCount;
      result := result + [newTask];
      if batch == 0 {
        CloseGroup(result, groups, batchCount, index);
        group := group.(end := |result|);
        groups := groups + [group];
        group := group.(first := group.end);
        batch := batchCount;
      }
    }
  }

  // ------------------------------------------------------------------ what a split means for a task

  lemma {:induction false} RowsAdd(tasks: seq<Task>, j: nat)
    requires j < |tasks|
    ensures |TaskRows(tasks)| == Total(tasks) && Total(tasks[..j]) + tasks[j].count <= Total(tasks)
    ensures TaskRows(tasks)[Total(tasks[..j])..Total(tasks[..j]) + tasks[j].count] == RowsOf(tasks[j])
  {
    var n := |tasks| - 1;
    if j < n {
      RowsAdd(tasks[..n], j);
      assert tasks[..n][..j] == tasks[..j];
    } else if n > 0 {
      RowsAdd(tasks[..n], n - 1);
    }
  }

  /** The r-th row of a task is the pass's row number indexInKernel + r. */
  lemma IndexIsPosition(matched: seq<seq<ChunkRef>>, batchCount: nat, tasks: seq<Task>, groups: seq<Group>, j: nat,
                        r: nat)
    requires Split(matched, batchCount, tasks, groups) && j < |tasks| && r < tasks[j].count
    ensures tasks[j].indexInKernel + r < |AllRows(matched)|
    ensures AllRows(matched)[tasks[j].indexInKernel + r] == Row(tasks[j].gid, tasks[j].chunk, tasks[j].start + r)
  {
    RowsAdd(tasks, j);
    assert RowsOf(tasks[j])[r] == TaskRows(tasks)[tasks[j].indexInKernel + r];
  }

  lemma {:induction false} FullGroupsTotal(tasks: seq<Task>, groups: seq<Group>, batchCount: nat)
    requires FullGroups(tasks, groups, batchCount)
    ensures Covered(groups) <= |tasks| && Total(tasks[..Covered(groups)]) == |groups| * batchCount
  {
    if groups == [] {
      assert tasks[..0] == [];
    } else {
      var n := |groups| - 1;
      FirstGroups(tasks, groups, batchCount);
      FullGroupsTotal(tasks, groups[..n], batchCount);
      TotalSplit(tasks[..groups[n].end], groups[n].first);
      assert tasks[..groups[n].end][groups[n].first..] == tasks[groups[n].first..groups[n].end];
      assert tasks[..groups[n].end][..groups[n].first] == tasks[..groups[n].first];
      assert (n + 1) * batchCount == n * batchCount + batchCount;
    }
  }

  lemma {:induction false} TotalSplit(tasks: seq<Task>, i: nat)
    requires i <= |tasks|
    ensures Total(tasks) == Total(tasks[..i]) + Total(tasks[i..])
  {
    if i == |tasks| {
      assert tasks[..i] == tasks && tasks[i..] == [];
    } else {
      var n := |tasks| - 1;
      TotalSplit(tasks[..n], i);
      assert tasks[..n][..i] == tasks[..i] && tasks[i..][..n - i] == tasks[..n][i..] && tasks[i..][n - i] == tasks[n];
    }
  }

  /** There are exactly as many groups as it takes: the rows divided by the batch size, rounded up. */
  lemma NoGroupTooMany(matched: seq<seq<ChunkRef>>, batchCount: nat, tasks: seq<Task>, groups: seq<Group>)
    requires batchCount > 0 && Split(matched, batchCount, tasks, groups)
    ensures (|groups| - 1) * batchCount < |AllRows(matched)| || groups == []
    ensures |AllRows(matched)| <= |groups| * batchCount
  {
    if tasks != [] {
      RowsAdd(tasks, 0);
    }
    if groups != [] {
      var n := |groups| - 1;
      FullGroupsTotal(tasks, groups[..n], batchCount);
      TotalSplit(tasks, groups[n].first);
      assert (n + 1) * batchCount == n * batchCount + batchCount;
    }
  }
}
