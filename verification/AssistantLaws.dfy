/** What the assistant service keeps over whole runs: laws about the operations of `Assistants`. */
module AssistantLaws {
  import opened Wrappers
  import opened Assistants

  // ------------------------------------------------------------------
  // Runs
  // ------------------------------------------------------------------

  datatype Op =
    | DoCreate(req: CreateRequest, generated: string)
    | DoUpdate(id: string, update: UpdateRequest)
    | DoDelete(id: string)
    | DoSetState(id: string, state: StateRequest)
    | DoImport(entries: seq<Entry>)
    | DoList

  function Step(w: World, st: Store, op: Op): Store {
    match op
    case DoCreate(req, generated) => Created(w, st, req, generated)
    case DoUpdate(id, req) => Updated(w, st, id, req)
    case DoDelete(id) => Deleted(w, st, id)
    case DoSetState(id, req) => StateSet(w, st, id, req)
    case DoImport(entries) => Store(ImportRows(w, st.rows, entries), st.overrides)
    case DoList => Store(st.rows, WithoutOrphans(w, st))
  }

  const EMPTY := Store([], map[])

  function After(w: World, st: Store, ops: seq<Op>): Store {
    if ops == [] then st else Step(w, After(w, st, ops[..|ops| - 1]), ops[|ops| - 1])
  }

  ghost predicate IdsDiffer(rows: seq<Row>) {
    forall i, j | 0 <= i < j < |rows| :: rows[i].id != rows[j].id
  }

  /** User ids are distinct and belong to no built-in and no extension. */
  ghost predicate RowsFit(w: World, rows: seq<Row>) {
    IdsDiffer(rows) && forall i | 0 <= i < |rows| :: ClassifySource(w, rows[i].id) == User
  }

  lemma {:induction false} WithoutRowMembers(rows: seq<Row>, id: string)
    ensures forall row :: row in WithoutRow(rows, id) <==> row in rows && row.id != id
  {
    if rows != [] {
      WithoutRowMembers(rows[1..], id);
      assert rows == [rows[0]] + rows[1..];
    }
  }

  lemma FirstDiffers(row: Row, rows: seq<Row>)
    requires IdsDiffer(rows) && forall r | r in rows :: r.id != row.id
    ensures IdsDiffer([row] + rows)
  {
  }

  lemma TailDiffers(rows: seq<Row>)
    requires IdsDiffer(rows) && rows != []
    ensures IdsDiffer(rows[1..]) && forall r | r in rows[1..] :: r.id != rows[0].id
  {
  }

  lemma {:induction false} WithoutRowDiffers(rows: seq<Row>, id: string)
    requires IdsDiffer(rows)
    ensures IdsDiffer(WithoutRow(rows, id))
  {
    if rows != [] {
      TailDiffers(rows);
      var rest := WithoutRow(rows[1..], id);
      WithoutRowDiffers(rows[1..], id);
      WithoutRowMembers(rows[1..], id);
      FirstDiffers(rows[0], rest);
      assert [] + rest == rest;
    }
  }

  lemma ConsFits(w: World, row: Row, rows: seq<Row>)
    requires RowsFit(w, rows) && ClassifySource(w, row.id) == User && forall r | r in rows :: r.id != row.id
    ensures RowsFit(w, [row] + rows)
  {
  }

  lemma WithoutRowFits(w: World, rows: seq<Row>, id: string)
    requires RowsFit(w, rows)
    ensures RowsFit(w, WithoutRow(rows, id))
  {
    WithoutRowDiffers(rows, id);
    WithoutRowMembers(rows, id);
    var rest := WithoutRow(rows, id);
    forall i | 0 <= i < |rest| ensures ClassifySource(w, rest[i].id) == User {
      assert rest[i] in rows;
    }
  }

  lemma {:induction false} ImportFits(w: World, rows: seq<Row>, entries: seq<Entry>)
    requires RowsFit(w, rows)
    ensures RowsFit(w, ImportRows(w, rows, entries))
  {
    if entries != [] {
      var init, e := entries[..|entries| - 1], entries[|entries| - 1];
      ImportFits(w, rows, init);
      var before := ImportRows(w, rows, init);
      if ImportOutcome(w, before, e.request, e.generated, e.fault) == Imported {
        ConsFits(w, NewRow(w, e.request, e.generated), before);
      }
    }
  }

  lemma StepFits(w: World, st: Store, op: Op)
    requires RowsFit(w, st.rows)
    ensures RowsFit(w, Step(w, st, op).rows)
  {
    match op
    case DoCreate(req, generated) =>
      if CreateError(w, st, req, generated).None? {
        ConsFits(w, Assistants.NewRow(w, req, generated), st.rows);
      }
    case DoUpdate(id, req) =>
      if UpdateError(w, st, id, req).None? && ClassifySource(w, id) != Builtin {
        WithoutRowFits(w, st.rows, id);
        WithoutRowMembers(st.rows, id);
        ConsFits(w, MergedRow(FindRow(st.rows, id).value, req), WithoutRow(st.rows, id));
      }
    case DoDelete(id) => WithoutRowFits(w, st.rows, id);
    case DoImport(entries) => ImportFits(w, st.rows, entries);
    case _ =>
  }

  lemma {:induction false} RunFits(w: World, st: Store, ops: seq<Op>)
    requires RowsFit(w, st.rows)
    ensures RowsFit(w, After(w, st, ops).rows)
  {
    if ops != [] {
      RunFits(w, st, ops[..|ops| - 1]);
      StepFits(w, After(w, st, ops[..|ops| - 1]), ops[|ops| - 1]);
    }
  }

  // ------------------------------------------------------------------
  // Sorting
  // ------------------------------------------------------------------

  ghost predicate Sorted(rs: seq<Response>) {
    forall i, j | 0 <= i < j < |rs| :: Precedes(rs[i], rs[j])
  }

  /** The entries that compare equal to r, in order. */
  function Ties(rs: seq<Response>, r: Response): seq<Response> {
    if rs == [] then [] else
    Ties(rs[..|rs| - 1], r)
    + if Tie(rs[|rs| - 1], r) then [rs[|rs| - 1]] else []
  }

  lemma SortedSnoc(rs: seq<Response>, r: Response)
    requires Sorted(rs) && forall x | x in rs :: Precedes(x, r)
    ensures Sorted(rs + [r])
  {
  }

  lemma AllPrecede(rs: seq<Response>, r: Response)
    requires Sorted(rs) && rs != [] && Precedes(rs[|rs| - 1], r)
    ensures forall x | x in rs :: Precedes(x, r)
  {
    forall x | x in rs ensures Precedes(x, r) {
      var i :| 0 <= i < |rs| && rs[i] == x;
      assert i < |rs| - 1 ==> Precedes(x, rs[|rs| - 1]);
    }
  }

  lemma {:induction false} InsertSortedKeeps(sorted: seq<Response>, r: Response)
    ensures multiset(InsertSorted(sorted, r)) == multiset(sorted) + multiset{r}
    ensures forall x :: x in InsertSorted(sorted, r) ==> x in sorted || x == r
  {
    if sorted != [] && !Precedes(sorted[|sorted| - 1], r) {
      InsertSortedKeeps(sorted[..|sorted| - 1], r);
      SplitLast(sorted);
    }
  }

  lemma {:induction false} InsertSortedSorts(sorted: seq<Response>, r: Response)
    requires Sorted(sorted)
    ensures Sorted(InsertSorted(sorted, r))
  {
    if sorted != [] {
      var init, last := sorted[..|sorted| - 1], sorted[|sorted| - 1];
      if Precedes(last, r) {
        AllPrecede(sorted, r);
        SortedSnoc(sorted, r);
      } else {
        InsertSortedSorts(init, r);
        InsertSortedKeeps(init, r);
        assert sorted == init + [last];
        LastFollows(init, last);
        SortedSnoc(InsertSorted(init, r), last);
      }
    }
  }

  lemma LastFollows(init: seq<Response>, last: Response)
    requires Sorted(init + [last])
    ensures forall x | x in init :: Precedes(x, last)
  {
    forall x | x in init ensures Precedes(x, last) {
      var i :| 0 <= i < |init| && init[i] == x;
      assert (init + [last])[i] == x && (init + [last])[|init|] == last;
    }
  }

  lemma {:induction false} InsertSortedIsStable(sorted: seq<Response>, r: Response, like: Response)
    ensures Ties(InsertSorted(sorted, r), like) == Ties(sorted + [r], like)
  {
    assert (sorted + [r])[..|sorted|] == sorted;
    if sorted != [] && !Precedes(sorted[|sorted| - 1], r) {
      var init, last := sorted[..|sorted| - 1], sorted[|sorted| - 1];
      InsertSortedIsStable(init, r, like);
      assert (init + [r])[..|init|] == init;
      assert InsertSorted(sorted, r)[..|InsertSorted(init, r)|] == InsertSorted(init, r);
    }
  }

  lemma {:induction false} SortIsSorted(rs: seq<Response>)
    ensures Sorted(Sort(rs))
  {
    if rs != [] {
      SortIsSorted(rs[..|rs| - 1]);
      InsertSortedSorts(Sort(rs[..|rs| - 1]), rs[|rs| - 1]);
    }
  }

  lemma SplitLast<T>(s: seq<T>)
    requires s != []
    ensures multiset(s) == multiset(s[..|s| - 1]) + multiset{s[|s| - 1]}
  {
    assert s == s[..|s| - 1] + [s[|s| - 1]];
  }

  lemma {:induction false} SortKeeps(rs: seq<Response>)
    ensures multiset(Sort(rs)) == multiset(rs)
  {
    if rs != [] {
      SortKeeps(rs[..|rs| - 1]);
      InsertSortedKeeps(Sort(rs[..|rs| - 1]), rs[|rs| - 1]);
      SplitLast(rs);
    }
  }

  lemma SortSorts(rs: seq<Response>)
    ensures Sorted(Sort(rs)) && multiset(Sort(rs)) == multiset(rs)
  {
    SortIsSorted(rs);
    SortKeeps(rs);
  }

  /** Entries that compare equal keep the order of the merge. */
  lemma {:induction false} SortIsStable(rs: seq<Response>, like: Response)
    ensures Ties(Sort(rs), like) == Ties(rs, like)
  {
    if rs != [] {
      var init, r := rs[..|rs| - 1], rs[|rs| - 1];
      SortIsStable(init, like);
      InsertSortedIsStable(Sort(init), r, like);
      assert (Sort(init) + [r])[..|Sort(init)|] == Sort(init);
    }
  }

  predicate Tie(a: Response, b: Response) {
    a.sortOrder == b.sortOrder && a.lastUsedAt == b.lastUsedAt
  }

  /** Two ties of a list stand among its ties in their order. */
  lemma {:induction false} TiesHold(rs: seq<Response>, like: Response, i: nat, j: nat) returns (p: nat, q: nat)
    requires i < j < |rs| && Tie(rs[i], like) && Tie(rs[j], like)
    ensures p < q < |Ties(rs, like)| && Ties(rs, like)[p] == rs[i] && Ties(rs, like)[q] == rs[j]
  {
    var init := rs[..|rs| - 1];
    if j < |init| {
      p, q := TiesHold(init, like, i, j);
    } else {
      p := TieHolds(init, like, i);
      q := |Ties(init, like)|;
    }
  }

  lemma {:induction false} TieHolds(rs: seq<Response>, like: Response, i: nat) returns (p: nat)
    requires i < |rs| && Tie(rs[i], like)
    ensures p < |Ties(rs, like)| && Ties(rs, like)[p] == rs[i]
  {
    var init := rs[..|rs| - 1];
    if i < |init| {
      p := TieHolds(init, like, i);
    } else {
      p := |Ties(init, like)|;
    }
  }

  /** And two of its ties come from places of the list in that order. */
  lemma {:induction false} TiesCome(rs: seq<Response>, like: Response, p: nat, q: nat) returns (i: nat, j: nat)
    requires p < q < |Ties(rs, like)|
    ensures i < j < |rs| && rs[i] == Ties(rs, like)[p] && rs[j] == Ties(rs, like)[q]
  {
    var init := rs[..|rs| - 1];
    if q < |Ties(init, like)| {
      i, j := TiesCome(init, like, p, q);
    } else {
      i := TieComes(init, like, p);
      j := |init|;
    }
  }

  lemma {:induction false} TieComes(rs: seq<Response>, like: Response, p: nat) returns (i: nat)
    requires p < |Ties(rs, like)|
    ensures i < |rs| && rs[i] == Ties(rs, like)[p]
  {
    var init := rs[..|rs| - 1];
    if p < |Ties(init, like)| {
      i := TieComes(init, like, p);
    } else {
      i := |init|;
    }
  }

  /** Entries that compare equal come out of the sort in the order in which they went in. */
  lemma TiesKeepOrder(rs: seq<Response>, i: nat, j: nat) returns (p: nat, q: nat)
    requires i < j < |Sort(rs)| && Tie(Sort(rs)[i], Sort(rs)[j])
    ensures p < q < |rs| && rs[p] == Sort(rs)[i] && rs[q] == Sort(rs)[j]
  {
    hide Sort, Ties;
    var like := Sort(rs)[j];
    var x, y := TiesHold(Sort(rs), like, i, j);
    SortIsStable(rs, like);
    p, q := TiesCome(rs, like, x, y);
  }

  /** Built-ins before user assistants before extensions, and those of one source in the order of the source. */
  ghost predicate SourceOrder(w: World, st: Store, a: Response, b: Response) {
    || (a.source == Builtin && b.source != Builtin)
    || (a.source == User && b.source == Extension)
    || (a.source == b.source == Builtin
        && exists p, q | 0 <= p < q < |w.builtins| :: w.builtins[p].id == a.id && w.builtins[q].id == b.id)
    || (a.source == b.source == User
        && exists p, q | 0 <= p < q < |st.rows| :: st.rows[p].id == a.id && st.rows[q].id == b.id)
    || (a.source == b.source == Extension
        && exists p, q | 0 <= p < q < |w.extensions| :: w.extensions[p].id == a.id && w.extensions[q].id == b.id)
  }

  lemma MergedInSourceOrder(w: World, st: Store, p: nat, q: nat)
    requires p < q < |Merged(w, st)|
    ensures SourceOrder(w, st, Merged(w, st)[p], Merged(w, st)[q])
  {
    hide FindOverride;
    var n, m := |w.builtins|, |w.builtins| + |st.rows|;
    var a, b := Merged(w, st)[p], Merged(w, st)[q];
    if q < n {
      assert w.builtins[p].id == a.id && w.builtins[q].id == b.id;
    } else if n <= p && q < m {
      assert st.rows[p - n].id == a.id && st.rows[q - n].id == b.id;
    } else if m <= p {
      assert w.extensions[p - m].id == a.id && w.extensions[q - m].id == b.id;
    }
  }

  /**
   The order of the list: smaller sort_order first; among equals the newer use, one never used last; among those
   that tie in both, the order of the sources.
   */
  lemma ListOrder(w: World, st: Store, i: nat, j: nat)
    requires i < j < |Listed(w, st)|
    ensures var a, b := Listed(w, st)[i], Listed(w, st)[j];
            || a.sortOrder < b.sortOrder
            || (a.sortOrder == b.sortOrder && a.lastUsedAt.Some?
                && (b.lastUsedAt.None? || a.lastUsedAt.value > b.lastUsedAt.value))
            || (a.sortOrder == b.sortOrder && a.lastUsedAt == b.lastUsedAt && SourceOrder(w, st, a, b))
  {
    hide SourceOrder, Sort, Merged;
    SortIsSorted(Merged(w, st));
    if Tie(Listed(w, st)[i], Listed(w, st)[j]) {
      var p, q := TiesKeepOrder(Merged(w, st), i, j);
      MergedInSourceOrder(w, st, p, q);
    } else {
      assert Precedes(Listed(w, st)[i], Listed(w, st)[j]);
    }
  }

  // ------------------------------------------------------------------
  // The list against the point lookup
  // ------------------------------------------------------------------

  ghost predicate BuiltinsDistinct(w: World) {
    forall i, j | 0 <= i < j < |w.builtins| :: w.builtins[i].id != w.builtins[j].id
  }

  /** No two extension assistants share an id, and none has the id of a built-in. */
  ghost predicate ExtensionsFit(w: World) {
    && (forall i, j | 0 <= i < j < |w.extensions| :: w.extensions[i].id != w.extensions[j].id)
    && (forall i, j | 0 <= i < |w.builtins| && 0 <= j < |w.extensions| :: w.builtins[i].id != w.extensions[j].id)
  }

  function Ids(rs: seq<Response>): seq<string> {
    if rs == [] then [] else Ids(rs[..|rs| - 1]) + [rs[|rs| - 1].id]
  }

  /** Exactly one entry for every assistant that can be looked up, and that entry is what the lookup returns. */
  ghost predicate ListMatchesGet(w: World, st: Store) {
    && (forall id :: multiset(Ids(Listed(w, st)))[id] == if GetResponse(w, st, id).Success? then 1 else 0)
    && (forall r | r in Listed(w, st) :: GetResponse(w, st, r.id) == Success(r))
  }

  lemma {:induction false} FindBuiltinAt(builtins: seq<BuiltinAssistant>, i: nat)
    requires i < |builtins| && forall i, j | 0 <= i < j < |builtins| :: builtins[i].id != builtins[j].id
    ensures FindBuiltin(builtins, builtins[i].id) == Some(builtins[i])
  {
    if i > 0 {
      FindBuiltinAt(builtins[1..], i - 1);
    }
  }

  lemma {:induction false} FindExtensionAt(extensions: seq<ExtensionAssistant>, i: nat)
    requires i < |extensions| && forall i, j | 0 <= i < j < |extensions| :: extensions[i].id != extensions[j].id
    ensures FindExtension(extensions, extensions[i].id) == Some(extensions[i])
  {
    if i > 0 {
      FindExtensionAt(extensions[1..], i - 1);
    }
  }

  lemma {:induction false} FindRowAt(rows: seq<Row>, i: nat)
    requires i < |rows| && forall i, j | 0 <= i < j < |rows| :: rows[i].id != rows[j].id
    ensures FindRow(rows, rows[i].id) == Some(rows[i])
  {
    if i > 0 {
      FindRowAt(rows[1..], i - 1);
    }
  }

  /** Every entry is the lookup of its id, one source at a time. */
  lemma EntryIsLookup(w: World, st: Store, r: Response)
    requires BuiltinsDistinct(w) && ExtensionsFit(w) && RowsFit(w, st.rows) && r in Merged(w, st)
    ensures GetResponse(w, st, r.id) == Success(r)
  {
    if r in BuiltinResponses(w.builtins, st.overrides) {
      var i :| 0 <= i < |w.builtins| && r == BuiltinResponses(w.builtins, st.overrides)[i];
      FindBuiltinAt(w.builtins, i);
    } else if r in RowResponses(st.rows, st.overrides) {
      var i :| 0 <= i < |st.rows| && r == RowResponses(st.rows, st.overrides)[i];
      FindRowAt(st.rows, i);
    } else {
      var i :| 0 <= i < |w.extensions| && r == ExtensionResponses(w.extensions)[i];
      FindExtensionAt(w.extensions, i);
    }
  }

  /** How often an id occurs in a list of responses. */
  lemma {:induction false} IdsConcat(a: seq<Response>, b: seq<Response>)
    ensures Ids(a + b) == Ids(a) + Ids(b)
  {
    if b == [] {
      assert a + b == a;
    } else {
      assert (a + b)[..|a + b| - 1] == a + b[..|b| - 1];
      IdsConcat(a, b[..|b| - 1]);
    }
  }

  lemma {:induction false} InsertSortedIds(sorted: seq<Response>, r: Response)
    ensures multiset(Ids(InsertSorted(sorted, r))) == multiset(Ids(sorted)) + multiset{r.id}
  {
    if sorted != [] && !Precedes(sorted[|sorted| - 1], r) {
      var init, last := sorted[..|sorted| - 1], sorted[|sorted| - 1];
      InsertSortedIds(init, r);
      assert InsertSorted(sorted, r)[..|InsertSorted(init, r)|] == InsertSorted(init, r);
    } else {
      assert (sorted + [r])[..|sorted|] == sorted;
    }
  }

  lemma {:induction false} SortIds(rs: seq<Response>)
    ensures multiset(Ids(Sort(rs))) == multiset(Ids(rs))
  {
    if rs != [] {
      SortIds(rs[..|rs| - 1]);
      InsertSortedIds(Sort(rs[..|rs| - 1]), rs[|rs| - 1]);
    }
  }

  lemma {:induction false} IdAbsent(rs: seq<Response>, id: string)
    requires forall i | 0 <= i < |rs| :: rs[i].id != id
    ensures multiset(Ids(rs))[id] == 0
  {
    if rs != [] {
      IdAbsent(rs[..|rs| - 1], id);
    }
  }

  lemma {:induction false} IdPresent(rs: seq<Response>, i: nat)
    requires i < |rs| && forall i, j | 0 <= i < j < |rs| :: rs[i].id != rs[j].id
    ensures multiset(Ids(rs))[rs[i].id] == 1
  {
    var init := rs[..|rs| - 1];
    if i < |init| {
      IdPresent(init, i);
    } else {
      IdAbsent(init, rs[i].id);
    }
  }

  lemma MergedCount(w: World, st: Store, id: string)
    ensures multiset(Ids(Merged(w, st)))[id] ==
            multiset(Ids(BuiltinResponses(w.builtins, st.overrides)))[id]
            + multiset(Ids(RowResponses(st.rows, st.overrides)))[id]
            + multiset(Ids(ExtensionResponses(w.extensions)))[id]
  {
    var b, u := BuiltinResponses(w.builtins, st.overrides), RowResponses(st.rows, st.overrides);
    var e := ExtensionResponses(w.extensions);
    IdsConcat(b + u, e);
    IdsConcat(b, u);
  }

  /** No id is found in two sources. */
  lemma SourcesDisjoint(w: World, st: Store, id: string)
    requires ExtensionsFit(w) && RowsFit(w, st.rows)
    ensures FindExtension(w.extensions, id).Some? ==> FindBuiltin(w.builtins, id).None?
    ensures FindRow(st.rows, id).Some? ==> ClassifySource(w, id) == User
  {
  }

  /** What is found is found in exactly one source. */
  lemma FoundOnce(w: World, st: Store, id: string)
    requires ExtensionsFit(w) && RowsFit(w, st.rows)
    ensures (if FindBuiltin(w.builtins, id).Some? then 1 else 0) + (if FindRow(st.rows, id).Some? then 1 else 0)
            + (if FindExtension(w.extensions, id).Some? then 1 else 0)
            == if GetResponse(w, st, id).Success? then 1 else 0
  {
    SourcesDisjoint(w, st, id);
  }

  lemma EntryCount(w: World, st: Store, id: string)
    requires BuiltinsDistinct(w) && ExtensionsFit(w) && RowsFit(w, st.rows)
    ensures multiset(Ids(Merged(w, st)))[id] == if GetResponse(w, st, id).Success? then 1 else 0
  {
    MergedCount(w, st, id);
    CountBuiltin(w, st, id);
    CountRow(w, st, id);
    CountExtension(w, id);
    FoundOnce(w, st, id);
  }

  lemma CountBuiltin(w: World, st: Store, id: string)
    requires BuiltinsDistinct(w)
    ensures multiset(Ids(BuiltinResponses(w.builtins, st.overrides)))[id] ==
            if FindBuiltin(w.builtins, id).Some? then 1 else 0
  {
    var rs := BuiltinResponses(w.builtins, st.overrides);
    if FindBuiltin(w.builtins, id).Some? {
      var i :| 0 <= i < |w.builtins| && w.builtins[i] == FindBuiltin(w.builtins, id).value;
      IdPresent(rs, i);
    } else {
      IdAbsent(rs, id);
    }
  }

  lemma CountRow(w: World, st: Store, id: string)
    requires RowsFit(w, st.rows)
    ensures multiset(Ids(RowResponses(st.rows, st.overrides)))[id] == if FindRow(st.rows, id).Some? then 1 else 0
  {
    var rs := RowResponses(st.rows, st.overrides);
    if FindRow(st.rows, id).Some? {
      var i :| 0 <= i < |st.rows| && st.rows[i] == FindRow(st.rows, id).value;
      IdPresent(rs, i);
    } else {
      IdAbsent(rs, id);
    }
  }

  lemma CountExtension(w: World, id: string)
    requires ExtensionsFit(w)
    ensures multiset(Ids(ExtensionResponses(w.extensions)))[id] ==
            if FindExtension(w.extensions, id).Some? then 1 else 0
  {
    var rs := ExtensionResponses(w.extensions);
    if FindExtension(w.extensions, id).Some? {
      var i :| 0 <= i < |w.extensions| && w.extensions[i] == FindExtension(w.extensions, id).value;
      IdPresent(rs, i);
    } else {
      IdAbsent(rs, id);
    }
  }

  lemma ListRefinesGet(w: World, st: Store)
    requires BuiltinsDistinct(w) && ExtensionsFit(w) && RowsFit(w, st.rows)
    ensures ListMatchesGet(w, st) && Sorted(Listed(w, st))
  {
    SortSorts(Merged(w, st));
    SortIds(Merged(w, st));
    forall id ensures multiset(Ids(Listed(w, st)))[id] == if GetResponse(w, st, id).Success? then 1 else 0 {
      EntryCount(w, st, id);
    }
    forall r | r in Listed(w, st) ensures GetResponse(w, st, r.id) == Success(r) {
      assert r in multiset(Merged(w, st));
      EntryIsLookup(w, st, r);
    }
  }

  /** Over whole runs the list and the lookup agree, whatever the users do, exactly if the extensions fit. */
  lemma ListMatchesGetIffExtensionsFit(w: World)
    requires BuiltinsDistinct(w)
    ensures (forall ops :: ListMatchesGet(w, After(w, EMPTY, ops))) <==> ExtensionsFit(w)
  {
    if ExtensionsFit(w) {
      forall ops ensures ListMatchesGet(w, After(w, EMPTY, ops)) {
        RunFits(w, EMPTY, ops);
        ListRefinesGet(w, After(w, EMPTY, ops));
      }
    } else {
      var none: seq<Op> := [];
      assert After(w, EMPTY, none) == EMPTY;
      var id := SharedId(w);
      SortIds(Merged(w, EMPTY));
      MergedCount(w, EMPTY, id);
    }
  }

  lemma {:induction false} IdTwice(rs: seq<Response>, i: nat, j: nat)
    requires i < j < |rs| && rs[i].id == rs[j].id
    ensures multiset(Ids(rs))[rs[i].id] >= 2
  {
    if j == |rs| - 1 {
      IdOnce(rs[..j], i);
    } else {
      IdTwice(rs[..|rs| - 1], i, j);
    }
  }

  lemma {:induction false} IdOnce(rs: seq<Response>, i: nat)
    requires i < |rs|
    ensures multiset(Ids(rs))[rs[i].id] >= 1
  {
    if i < |rs| - 1 {
      IdOnce(rs[..|rs| - 1], i);
    }
  }

  lemma SharedId(w: World) returns (id: string)
    requires !ExtensionsFit(w)
    ensures multiset(Ids(BuiltinResponses(w.builtins, map[])))[id]
            + multiset(Ids(ExtensionResponses(w.extensions)))[id] >= 2
  {
    if i, j :| 0 <= i < j < |w.extensions| && w.extensions[i].id == w.extensions[j].id {
      id := w.extensions[i].id;
      IdTwice(ExtensionResponses(w.extensions), i, j);
    } else {
      var i, j :| 0 <= i < |w.builtins| && 0 <= j < |w.extensions| && w.builtins[i].id == w.extensions[j].id;
      id := w.builtins[i].id;
      IdOnce(BuiltinResponses(w.builtins, map[]), i);
      IdOnce(ExtensionResponses(w.extensions), j);
    }
  }

  lemma ListedIffFound(w: World, st: Store, id: string)
    requires BuiltinsDistinct(w) && ExtensionsFit(w) && RowsFit(w, st.rows)
    ensures (exists r | r in Listed(w, st) :: r.id == id) <==> GetResponse(w, st, id).Success?
  {
    ListRefinesGet(w, st);
    var rs := Listed(w, st);
    assert multiset(Ids(rs))[id] == if GetResponse(w, st, id).Success? then 1 else 0;
    if GetResponse(w, st, id).Success? {
      IdListed(rs, id);
    }
  }

  /** The orphan cleanup of a list changes no lookup and leaves overrides of existing assistants only. */
  lemma OrphanCleanupIsSafe(w: World, st: Store, id: string)
    requires BuiltinsDistinct(w) && ExtensionsFit(w) && RowsFit(w, st.rows)
    ensures FindOverride(WithoutOrphans(w, st), id) ==
            if GetResponse(w, st, id).Success? then FindOverride(st.overrides, id) else None
    ensures GetResponse(w, Step(w, st, DoList), id) == GetResponse(w, st, id)
  {
    ListedIffFound(w, st, id);
    LookupNeedsOverrideOnly(w, st, WithoutOrphans(w, st), id);
  }

  lemma LookupNeedsOverrideOnly(w: World, st: Store, overrides: map<string, Override>, id: string)
    requires GetResponse(w, st, id).Success? ==> FindOverride(overrides, id) == FindOverride(st.overrides, id)
    ensures GetResponse(w, Store(st.rows, overrides), id) == GetResponse(w, st, id)
  {
  }

  lemma {:induction false} IdListed(rs: seq<Response>, id: string)
    requires multiset(Ids(rs))[id] > 0
    ensures exists r | r in rs :: r.id == id
  {
    if rs[|rs| - 1].id == id {
      assert rs[|rs| - 1] in rs;
    } else {
      IdListed(rs[..|rs| - 1], id);
      var r :| r in rs[..|rs| - 1] && r.id == id;
      assert r in rs;
    }
  }

  // ------------------------------------------------------------------
  // What one operation leaves alone
  // ------------------------------------------------------------------

  lemma FindInFront(row: Row, rest: seq<Row>, id: string)
    ensures FindRow([row] + rest, id) == if row.id == id then Some(row) else FindRow(rest, id)
  {
    assert ([row] + rest)[1..] == rest;
  }

  lemma {:induction false} FindWithoutRow(rows: seq<Row>, id: string, other: string)
    ensures FindRow(WithoutRow(rows, id), other) == if other == id then None else FindRow(rows, other)
  {
    if rows != [] {
      var row, rest := rows[0], WithoutRow(rows[1..], id);
      FindWithoutRow(rows[1..], id, other);
      FindInFront(row, rest, other);
      assert WithoutRow(rows, id) == if row.id == id then rest else [row] + rest by {
        assert [] + rest == rest;
      }
    }
  }

  /** Apart from a delete of `id`, an operation leaves its row there, changed only by an update of `id`. */
  lemma RowStep(w: World, st: Store, op: Op, id: string)
    requires FindRow(st.rows, id).Some? && ClassifySource(w, id) == User && !(op.DoDelete? && op.id == id)
    ensures FindRow(Step(w, st, op).rows, id) ==
            Some(if op.DoUpdate? && op.id == id then MergedRow(FindRow(st.rows, id).value, op.update)
                 else FindRow(st.rows, id).value)
  {
    match op
    case DoCreate(req, generated) =>
      if CreateError(w, st, req, generated).None? {
        FindInFront(NewRow(w, req, generated), st.rows, id);
      }
    case DoUpdate(updated, req) =>
      if UpdateError(w, st, updated, req).None? && ClassifySource(w, updated) != Builtin {
        FindInFront(MergedRow(FindRow(st.rows, updated).value, req), WithoutRow(st.rows, updated), id);
        FindWithoutRow(st.rows, updated, id);
      }
    case DoDelete(deleted) => FindWithoutRow(st.rows, deleted, id);
    case DoImport(entries) => ImportKeepsRow(w, st.rows, entries, id);
    case _ =>
  }

  lemma {:induction false} ImportKeepsRow(w: World, rows: seq<Row>, entries: seq<Entry>, id: string)
    requires FindRow(rows, id).Some?
    ensures FindRow(ImportRows(w, rows, entries), id) == FindRow(rows, id)
  {
    if entries != [] {
      var init, e := entries[..|entries| - 1], entries[|entries| - 1];
      ImportKeepsRow(w, rows, init, id);
      var before := ImportRows(w, rows, init);
      if ImportOutcome(w, before, e.request, e.generated, e.fault) == Imported {
        FindInFront(NewRow(w, e.request, e.generated), before, id);
      }
    }
  }

  /** A deleted user assistant is gone with its override; what else was there still is. */
  lemma DeleteRemovesOne(w: World, st: Store, id: string, other: string)
    requires DeleteError(w, st, id).None?
    ensures var st' := Deleted(w, st, id);
            if other == id then GetResponse(w, st', id) == Failure(NotFound) && FindOverride(st'.overrides, id) == None
            else GetResponse(w, st', other) == GetResponse(w, st, other)
  {
    FindWithoutRow(st.rows, id, other);
  }

  // ------------------------------------------------------------------
  // Import
  // ------------------------------------------------------------------

  /** Every entry is accounted for; rows are only added, in front, one for each imported entry. */
  lemma {:induction false} ImportAccounts(w: World, rows: seq<Row>, entries: seq<Entry>)
    ensures var r := ImportTally(w, rows, entries);
            r.imported + r.skipped + r.failed == |entries| && |r.errors| == r.failed
    ensures AddedInFront(rows, ImportRows(w, rows, entries), ImportTally(w, rows, entries).imported)
  {
    if entries != [] {
      var init, e := entries[..|entries| - 1], entries[|entries| - 1];
      ImportAccounts(w, rows, init);
      var before, r := ImportRows(w, rows, init), ImportTally(w, rows, init);
      var outcome := ImportOutcome(w, before, e.request, e.generated, e.fault);
      TallyAdds(r, IdOf(e.request.id, e.generated), outcome);
      if outcome == Imported {
        OneMoreInFront(rows, before, r.imported, NewRow(w, e.request, e.generated));
      }
    }
  }

  predicate AddedInFront(rows: seq<Row>, rows': seq<Row>, n: nat) {
    |rows'| == n + |rows| && rows'[n..] == rows
  }

  lemma OneMoreInFront(rows: seq<Row>, rows': seq<Row>, n: nat, row: Row)
    requires AddedInFront(rows, rows', n)
    ensures AddedInFront(rows, [row] + rows', n + 1)
  {
  }

  lemma TallyAdds(r: ImportResult, id: string, outcome: Outcome)
    ensures var r' := Tally(r, id, outcome);
            && r'.imported + r'.skipped + r'.failed == r.imported + r.skipped + r.failed + 1
            && |r'.errors| - |r.errors| == r'.failed - r.failed
            && r'.imported == r.imported + if outcome == Imported then 1 else 0
  {
  }

  /** An id no later import can insert. */
  predicate Taken(w: World, rows: seq<Row>, id: string) {
    ClassifySource(w, id) != User || FindRow(rows, id).Some?
  }

  /** An entry is refused for reasons of its own: no name, or no agent type to give it. */
  predicate Refused(w: World, req: CreateRequest) {
    Trim(req.name) == "" || AgentType(w, req.preset).Failure?
  }

  lemma FindRowInLarger(added: seq<Row>, rows: seq<Row>, id: string)
    requires FindRow(rows, id).Some?
    ensures FindRow(added + rows, id).Some?
  {
    var all := added + rows;
    var row := FindRow(rows, id).value;
    assert row in all;
  }

  lemma {:induction false} ImportSettles(w: World, rows: seq<Row>, entries: seq<Entry>, i: nat)
    requires i < |entries| && entries[i].fault == NoFault
    ensures Taken(w, ImportRows(w, rows, entries), IdOf(entries[i].request.id, entries[i].generated))
            || Refused(w, entries[i].request)
  {
    var init, e := entries[..|entries| - 1], entries[|entries| - 1];
    var before, id := ImportRows(w, rows, init), IdOf(entries[i].request.id, entries[i].generated);
    if i < |init| {
      ImportSettles(w, rows, init, i);
      if FindRow(before, id).Some? && ImportRows(w, rows, entries) != before {
        FindRowInLarger([NewRow(w, e.request, e.generated)], before, id);
      }
    }
  }

  lemma {:induction false} NothingToImport(w: World, rows: seq<Row>, entries: seq<Entry>)
    requires forall e | e in entries :: Taken(w, rows, IdOf(e.request.id, e.generated)) || Refused(w, e.request)
    ensures ImportRows(w, rows, entries) == rows && ImportTally(w, rows, entries).imported == 0
  {
    if entries != [] {
      assert entries[|entries| - 1] in entries && forall e | e in entries[..|entries| - 1] :: e in entries;
      NothingToImport(w, rows, entries[..|entries| - 1]);
    }
  }

  /** The same requests, with explicit ids and no repository faults, imported again: nothing is inserted. */
  lemma ReimportImportsNothing(w: World, rows: seq<Row>, entries: seq<Entry>, again: seq<Entry>)
    requires |again| == |entries|
    requires forall i | 0 <= i < |entries| ::
               && again[i].request == entries[i].request && entries[i].fault == NoFault
               && entries[i].request.id.Some? && entries[i].request.id.value != ""
    ensures var rows' := ImportRows(w, rows, entries);
            ImportTally(w, rows', again).imported == 0 && ImportRows(w, rows', again) == rows'
  {
    var rows' := ImportRows(w, rows, entries);
    forall e | e in again ensures Taken(w, rows', IdOf(e.request.id, e.generated)) || Refused(w, e.request) {
      var i :| 0 <= i < |again| && again[i] == e;
      ImportSettles(w, rows, entries, i);
    }
    NothingToImport(w, rows', again);
  }

  /** An entry that leaves its id to be generated. */
  predicate Anonymous(e: Entry) {
    e.request.id.GetOr("") == ""
  }

  /** How many entries leave their id to be generated and are not refused. */
  function AnonymousAccepted(w: World, entries: seq<Entry>): nat {
    if entries == [] then 0 else
    var e := entries[|entries| - 1];
    AnonymousAccepted(w, entries[..|entries| - 1]) + if Anonymous(e) && !Refused(w, e.request) then 1 else 0
  }

  /** The generated ids are new: they belong to nobody, and no other entry has them. */
  ghost predicate NewIds(w: World, rows: seq<Row>, entries: seq<Entry>) {
    && (forall i | 0 <= i < |entries| && Anonymous(entries[i]) :: !Taken(w, rows, entries[i].generated))
    && (forall i, j | 0 <= i < |entries| && 0 <= j < |entries| && i != j && Anonymous(entries[j]) ::
          IdOf(entries[i].request.id, entries[i].generated) != entries[j].generated)
  }

  lemma {:induction false} NotImported(w: World, rows: seq<Row>, entries: seq<Entry>, id: string)
    requires FindRow(rows, id).None?
    requires forall i | 0 <= i < |entries| :: IdOf(entries[i].request.id, entries[i].generated) != id
    ensures FindRow(ImportRows(w, rows, entries), id).None?
  {
    if entries != [] {
      var init, e := entries[..|entries| - 1], entries[|entries| - 1];
      NotImported(w, rows, init, id);
      var before := ImportRows(w, rows, init);
      if ImportOutcome(w, before, e.request, e.generated, e.fault) == Imported {
        FindInFront(NewRow(w, e.request, e.generated), before, id);
      }
    }
  }

  lemma AnonymousIsImported(w: World, rows: seq<Row>, e: Entry)
    requires e.fault == NoFault && !Taken(w, rows, IdOf(e.request.id, e.generated))
    ensures ImportOutcome(w, rows, e.request, e.generated, e.fault) == Imported <==> !Refused(w, e.request)
  {
  }

  lemma {:induction false} OnlyAnonymousImported(w: World, rows: seq<Row>, entries: seq<Entry>)
    requires NewIds(w, rows, entries)
    requires forall i | 0 <= i < |entries| ::
               if Anonymous(entries[i]) then entries[i].fault == NoFault
               else Taken(w, rows, IdOf(entries[i].request.id, entries[i].generated)) || Refused(w, entries[i].request)
    ensures ImportTally(w, rows, entries).imported == AnonymousAccepted(w, entries)
  {
    if entries != [] {
      var init, e := entries[..|entries| - 1], entries[|entries| - 1];
      OnlyAnonymousImported(w, rows, init);
      var before, id := ImportRows(w, rows, init), IdOf(e.request.id, e.generated);
      TallyAdds(ImportTally(w, rows, init), id, ImportOutcome(w, before, e.request, e.generated, e.fault));
      if Anonymous(e) {
        assert forall i | 0 <= i < |init| :: IdOf(init[i].request.id, init[i].generated) != id;
        NotImported(w, rows, init, id);
        AnonymousIsImported(w, before, e);
      } else if FindRow(rows, id).Some? {
        ImportKeepsRow(w, rows, init, id);
      }
    }
  }

  /**
   The same requests imported again, without repository faults: exactly the entries without an id of their own
   are inserted once more, so an import is idempotent just when every entry it accepts has one.
   */
  lemma ReimportInserts(w: World, rows: seq<Row>, entries: seq<Entry>, again: seq<Entry>)
    requires |again| == |entries| && NewIds(w, ImportRows(w, rows, entries), again)
    requires forall i | 0 <= i < |entries| ::
               again[i].request == entries[i].request && entries[i].fault == NoFault && again[i].fault == NoFault
    ensures ImportTally(w, ImportRows(w, rows, entries), again).imported == AnonymousAccepted(w, again)
  {
    forall i | 0 <= i < |entries| && !Anonymous(again[i])
      ensures Taken(w, ImportRows(w, rows, entries), IdOf(again[i].request.id, again[i].generated))
              || Refused(w, again[i].request)
    {
      ImportSettles(w, rows, entries, i);
    }
    OnlyAnonymousImported(w, ImportRows(w, rows, entries), again);
  }

  // ------------------------------------------------------------------
  // Overrides
  // ------------------------------------------------------------------

  /** Every override belongs to an assistant that can be looked up. */
  ghost predicate NoOrphans(w: World, st: Store) {
    forall id | id in st.overrides :: GetResponse(w, st, id).Success?
  }

  lemma StepKeepsNoOrphans(w: World, st: Store, op: Op)
    requires BuiltinsDistinct(w) && ExtensionsFit(w) && RowsFit(w, st.rows) && NoOrphans(w, st)
    ensures NoOrphans(w, Step(w, st, op))
  {
    var st' := Step(w, st, op);
    forall id | id in st'.overrides ensures GetResponse(w, st', id).Success? {
      assert id in st.overrides || ((op.DoUpdate? || op.DoSetState?) && op.id == id);
      assert GetResponse(w, st, id).Success?;
      if ClassifySource(w, id) == User && !(op.DoDelete? && op.id == id) {
        RowStep(w, st, op, id);
      }
    }
  }

  /** In every run an override outlives its assistant by no operation, and a new assistant starts with the defaults. */
  lemma {:induction false} RunHasNoOrphans(w: World, ops: seq<Op>)
    requires BuiltinsDistinct(w) && ExtensionsFit(w)
    ensures NoOrphans(w, After(w, EMPTY, ops))
  {
    if ops != [] {
      RunHasNoOrphans(w, ops[..|ops| - 1]);
      RunFits(w, EMPTY, ops[..|ops| - 1]);
      StepKeepsNoOrphans(w, After(w, EMPTY, ops[..|ops| - 1]), ops[|ops| - 1]);
    }
  }

  lemma CreatedIsFound(w: World, st: Store, req: CreateRequest, generated: string)
    requires NoOrphans(w, st) && CreateError(w, st, req, generated).None?
    ensures var id := IdOf(req.id, generated);
            && GetResponse(w, st, id) == Failure(NotFound)
            && GetResponse(w, Created(w, st, req, generated), id) ==
               Success(Response(id, User, Trim(req.name), true, 0, AgentType(w, req.preset).value, req.fields,
                                None, None))
  {
    var id := IdOf(req.id, generated);
    assert id in st.overrides ==> GetResponse(w, st, id).Success?;
    FindInFront(NewRow(w, req, generated), st.rows, id);
  }

  // ------------------------------------------------------------------
  // The last writer wins, field by field
  // ------------------------------------------------------------------

  /** The latest value that the operations supply. */
  function Last<T>(supplied: Op -> Option<T>, ops: seq<Op>): Option<T> {
    if ops == [] then None else supplied(ops[|ops| - 1]).Or(Last(supplied, ops[..|ops| - 1]))
  }

  /** What an operation explicitly sets for `id`; a built-in refuses an update of anything but the preset. */
  function StateSupplied(op: Op, id: string): StateRequest {
    if op.DoSetState? && op.id == id then op.state else StateRequest(None, None, None)
  }

  function UpdateSupplied(w: World, op: Op, id: string): UpdateRequest {
    if op.DoUpdate? && op.id == id
       && (ClassifySource(w, id) == Builtin ==> op.update.name.None? && op.update.fields == map[])
    then op.update else UpdateRequest(None, None, map[])
  }

  function EnabledSet(id: string): Op -> Option<bool> { op => StateSupplied(op, id).enabled }

  function SortOrderSet(id: string): Op -> Option<int> { op => StateSupplied(op, id).sortOrder }

  function LastUsedSet(id: string): Op -> Option<int> { op => StateSupplied(op, id).lastUsedAt }

  function NameSet(w: World, id: string): Op -> Option<string> { op => UpdateSupplied(w, op, id).name }

  function PresetSet(w: World, id: string): Op -> Option<string> { op => UpdateSupplied(w, op, id).preset }

  function FieldSet(w: World, id: string, f: Field): Op -> Option<string> {
    op => FieldOf(UpdateSupplied(w, op, id).fields, f)
  }

  function FieldOf(fields: Fields, f: Field): Option<string> {
    if f in fields then Some(fields[f]) else None
  }

  ghost predicate ShowsLast(w: World, start: Response, r: Response, ops: seq<Op>) {
    && r.id == start.id && r.source == start.source && r.context == start.context
    && r.name == Last(NameSet(w, start.id), ops).GetOr(start.name)
    && r.enabled == Last(EnabledSet(start.id), ops).GetOr(start.enabled)
    && r.sortOrder == Last(SortOrderSet(start.id), ops).GetOr(start.sortOrder)
    && r.preset == Last(PresetSet(w, start.id), ops).GetOr(start.preset)
    && r.lastUsedAt == Last(LastUsedSet(start.id), ops).Or(start.lastUsedAt)
    && forall f :: FieldOf(r.fields, f) == Last(FieldSet(w, start.id, f), ops).Or(FieldOf(start.fields, f))
  }

  /** What a lookup shows after one more operation. */
  function Shown(w: World, r: Response, op: Op): Response {
    var state, update := StateSupplied(op, r.id), UpdateSupplied(w, op, r.id);
    r.(name := update.name.GetOr(r.name), preset := update.preset.GetOr(r.preset), fields := r.fields + update.fields,
       enabled := state.enabled.GetOr(r.enabled), sortOrder := state.sortOrder.GetOr(r.sortOrder),
       lastUsedAt := state.lastUsedAt.Or(r.lastUsedAt))
  }

  lemma BuiltinStep(w: World, st: Store, op: Op, id: string)
    requires BuiltinsDistinct(w) && ExtensionsFit(w) && RowsFit(w, st.rows) && ClassifySource(w, id) == Builtin
    ensures GetResponse(w, Step(w, st, op), id) == Success(Shown(w, GetResponse(w, st, id).value, op))
  {
    hide FindRow, FindBuiltin, FindExtension, WithoutRow, ImportRows, WithoutOrphans;
    KeptFields(GetResponse(w, st, id).value.fields);
    if op.DoList? {
      OrphanCleanupIsSafe(w, st, id);
    }
  }

  lemma KeptFields(fields: Fields)
    ensures fields + map[] == fields
  {
  }

  /** What happens to the override of a user assistant that stays. */
  lemma OverrideStep(w: World, st: Store, op: Op, id: string)
    requires ClassifySource(w, id) == User && FindRow(st.rows, id).Some? && !(op.DoDelete? && op.id == id)
    requires op.DoList? ==> FindOverride(Step(w, st, op).overrides, id) == FindOverride(st.overrides, id)
    ensures var ov, ov' := FindOverride(st.overrides, id), FindOverride(Step(w, st, op).overrides, id);
            && EnabledOf(ov') == StateSupplied(op, id).enabled.GetOr(EnabledOf(ov))
            && SortOrderOf(ov') == StateSupplied(op, id).sortOrder.GetOr(SortOrderOf(ov))
            && LastUsedOf(ov') == StateSupplied(op, id).lastUsedAt.Or(LastUsedOf(ov))
  {
  }

  lemma UserStep(w: World, st: Store, op: Op, id: string)
    requires BuiltinsDistinct(w) && ExtensionsFit(w) && RowsFit(w, st.rows)
    requires ClassifySource(w, id) == User && FindRow(st.rows, id).Some? && !(op.DoDelete? && op.id == id)
    ensures GetResponse(w, Step(w, st, op), id) == Success(Shown(w, GetResponse(w, st, id).value, op))
  {
    KeptFields(FindRow(st.rows, id).value.fields);
    RowStep(w, st, op, id);
    OrphanCleanupIsSafe(w, st, id);
    OverrideStep(w, st, op, id);
  }

  lemma ShownLast(w: World, start: Response, r: Response, ops: seq<Op>)
    requires ops != [] && ShowsLast(w, start, r, ops[..|ops| - 1])
    ensures ShowsLast(w, start, Shown(w, r, ops[|ops| - 1]), ops)
  {
    var r' := Shown(w, r, ops[|ops| - 1]);
    forall f ensures FieldOf(r'.fields, f) == Last(FieldSet(w, start.id, f), ops).Or(FieldOf(start.fields, f)) {
      assert FieldOf(r.fields, f) == Last(FieldSet(w, start.id, f), ops[..|ops| - 1]).Or(FieldOf(start.fields, f));
    }
  }

  /**
   Whatever else happens in between, a lookup shows in each field the value last supplied for it, and what it
   showed at the start if none was.
   */
  lemma {:induction false} LastWriterWins(w: World, st: Store, ops: seq<Op>, id: string)
    requires BuiltinsDistinct(w) && ExtensionsFit(w) && RowsFit(w, st.rows)
    requires GetResponse(w, st, id).Success? && ClassifySource(w, id) != Extension
    requires ClassifySource(w, id) == User ==> forall op | op in ops && op.DoDelete? :: op.id != id
    ensures var r := GetResponse(w, After(w, st, ops), id);
            r.Success? && ShowsLast(w, GetResponse(w, st, id).value, r.value, ops)
  {
    if ops != [] {
      var init, op := ops[..|ops| - 1], ops[|ops| - 1];
      assert op in ops && forall o | o in init :: o in ops;
      LastWriterWins(w, st, init, id);
      RunFits(w, st, init);
      var before := After(w, st, init);
      if ClassifySource(w, id) == Builtin {
        BuiltinStep(w, before, op, id);
      } else {
        UserStep(w, before, op, id);
      }
      ShownLast(w, GetResponse(w, st, id).value, GetResponse(w, before, id).value, ops);
    }
  }

  /** For a built-in the start is its default: enabled, sorted first, never used, with the preset it came with. */
  lemma BuiltinDefaults(w: World, b: BuiltinAssistant)
    requires BuiltinsDistinct(w) && b in w.builtins
    ensures GetResponse(w, EMPTY, b.id) ==
            Success(Response(b.id, Builtin, b.name, true, 0, b.preset, b.fields, None, None))
  {
    var i :| 0 <= i < |w.builtins| && w.builtins[i] == b;
    FindBuiltinAt(w.builtins, i);
  }

  // ------------------------------------------------------------------
  // What each operation decides
  // ------------------------------------------------------------------

  ghost predicate IsBuiltin(w: World, id: string) {
    exists b :: b in w.builtins && b.id == id
  }

  ghost predicate IsExtension(w: World, id: string) {
    exists e :: e in w.extensions && e.id == id
  }

  ghost predicate HasRow(rows: seq<Row>, id: string) {
    exists row :: row in rows && row.id == id
  }

  lemma RowIsFound(rows: seq<Row>, id: string)
    ensures FindRow(rows, id).Some? <==> HasRow(rows, id)
  {
  }

  /** A built-in id is a built-in even if an extension has it too; what neither has is a user's. */
  lemma ClassifyDecides(w: World, id: string)
    ensures ClassifySource(w, id) ==
            if IsBuiltin(w, id) then Builtin else if IsExtension(w, id) then Extension else User
  {
  }

  /** A preset that is given is taken; otherwise one enabled provider suffices for the default. */
  lemma AgentTypeDecides(w: World, preset: Option<string>)
    ensures var given := preset.Some? && preset.value != "";
            && (given ==> AgentType(w, preset) == Success(preset.value))
            && (!given && w.providers.Failure? ==> AgentType(w, preset) == Failure(Internal))
            && (!given && w.providers.Success? && (exists i :: 0 <= i < |w.providers.value| && w.providers.value[i]) ==>
                  AgentType(w, preset) == Success("aionrs"))
            && (!given && w.providers.Success? && (forall i | 0 <= i < |w.providers.value| :: !w.providers.value[i]) ==>
                  AgentType(w, preset) == Failure(BadRequest))
  {
  }

  lemma IdDecides(id: Option<string>, generated: string)
    ensures id.Some? && id.value != "" ==> IdOf(id, generated) == id.value
    ensures id.None? || id.value == "" ==> IdOf(id, generated) == generated
  {
  }

  ghost predicate AllWhitespace(s: string) {
    forall c | c in s :: IsWhitespace(c)
  }

  ghost predicate Cut(s: string, head: string, middle: string, tail: string) {
    && s == head + middle + tail && AllWhitespace(head) && AllWhitespace(tail)
    && (middle != "" ==> !IsWhitespace(middle[0]) && !IsWhitespace(middle[|middle| - 1]))
  }

  lemma NothingIsCut()
    ensures Cut("", "", "", "")
  {
  }

  lemma CutBefore(c: char, s: string, head: string, middle: string, tail: string)
    requires Cut(s, head, middle, tail) && IsWhitespace(c)
    ensures Cut([c] + s, [c] + head, middle, tail)
  {
    hide IsWhitespace;
    assert [c] + s == ([c] + head) + middle + tail;
  }

  lemma {:induction false} TrimEndCuts(s: string) returns (tail: string)
    requires s != "" ==> !IsWhitespace(s[0])
    ensures Cut(s, "", TrimEnd(s), tail)
  {
    hide IsWhitespace;
    if s != "" && IsWhitespace(s[|s| - 1]) {
      var rest := TrimEndCuts(s[..|s| - 1]);
      tail := rest + [s[|s| - 1]];
      assert s == s[..|s| - 1] + [s[|s| - 1]];
      assert "" + TrimEnd(s) + tail == ("" + TrimEnd(s[..|s| - 1]) + rest) + [s[|s| - 1]];
    } else {
      tail := "";
      assert s == "" + s + tail;
    }
  }

  /** Trimming cuts whitespace off both ends and nothing else. */
  lemma {:induction false} TrimCuts(s: string) returns (head: string, tail: string)
    ensures Cut(s, head, Trim(s), tail)
  {
    hide IsWhitespace, TrimEnd, Cut, AllWhitespace;
    if s == "" {
      head, tail := "", "";
      NothingIsCut();
    } else if IsWhitespace(s[0]) {
      var rest;
      rest, tail := TrimCuts(s[1..]);
      head := [s[0]] + rest;
      assert s == [s[0]] + s[1..];
      CutBefore(s[0], s[1..], rest, Trim(s[1..]), tail);
    } else {
      head := "";
      tail := TrimEndCuts(s);
    }
  }

  /** The refusals of a create, in their order. */
  lemma CreateDecides(w: World, st: Store, req: CreateRequest, generated: string)
    ensures var id, error := IdOf(req.id, generated), CreateError(w, st, req, generated);
            error == if AllWhitespace(req.name) || IsBuiltin(w, id) || IsExtension(w, id) then Some(BadRequest)
                     else if AgentType(w, req.preset).Failure? then Some(AgentType(w, req.preset).error)
                     else if HasRow(st.rows, id) then Some(Conflict) else None
  {
    RowIsFound(st.rows, IdOf(req.id, generated));
    ClassifyDecides(w, IdOf(req.id, generated));
  }

  /** Of a built-in only the preset can be updated, of an extension nothing. */
  lemma UpdateDecides(w: World, st: Store, id: string, req: UpdateRequest)
    ensures var error := UpdateError(w, st, id, req);
            if IsBuiltin(w, id) then
              error == (if req.name.Some? || (exists f :: f in req.fields) then Some(Forbidden)
                        else if req.preset.None? then Some(BadRequest) else None)
            else if IsExtension(w, id) then error == Some(Forbidden)
            else error == if HasRow(st.rows, id) then None else Some(NotFound)
  {
    RowIsFound(st.rows, id);
    ClassifyDecides(w, id);
    assert req.fields == map[] <==> !exists f :: f in req.fields;
  }

  /** Only a user's assistant can be deleted; the state of an extension cannot be set. */
  lemma DeleteAndStateDecide(w: World, st: Store, id: string)
    ensures DeleteError(w, st, id) ==
            if IsBuiltin(w, id) || IsExtension(w, id) then Some(Forbidden)
            else if HasRow(st.rows, id) then None else Some(NotFound)
    ensures SetStateError(w, st, id) ==
            if IsBuiltin(w, id) then None else if IsExtension(w, id) then Some(BadRequest)
            else if HasRow(st.rows, id) then None else Some(NotFound)
  {
    RowIsFound(st.rows, id);
    ClassifyDecides(w, id);
  }

  /** What becomes of one entry: a taken id is skipped, a refusal or a fault of the repository is a failure. */
  lemma ImportDecides(w: World, rows: seq<Row>, e: Entry)
    ensures var id, outcome := IdOf(e.request.id, e.generated), ImportOutcome(w, rows, e.request, e.generated, e.fault);
            if IsBuiltin(w, id) || IsExtension(w, id) then outcome == Skipped
            else if e.fault == GetFails then outcome == Failed(Internal)
            else if HasRow(rows, id) then outcome == Skipped
            else if AllWhitespace(e.request.name) then outcome == Failed(BadRequest)
            else if AgentType(w, e.request.preset).Failure? then outcome == Failed(AgentType(w, e.request.preset).error)
            else outcome == if e.fault == CreateConflicts then Skipped
                            else if e.fault == CreateFails then Failed(Internal) else Imported
  {
    RowIsFound(rows, IdOf(e.request.id, e.generated));
    ClassifyDecides(w, IdOf(e.request.id, e.generated));
  }

  function OutcomeAt(w: World, rows: seq<Row>, entries: seq<Entry>, i: nat): Outcome
    requires i < |entries|
  {
    ImportOutcome(w, ImportRows(w, rows, entries[..i]), entries[i].request, entries[i].generated, entries[i].fault)
  }

  /** An imported entry is in the table at the end of the batch, as it was requested. */
  lemma {:induction false} ImportedIsFound(w: World, rows: seq<Row>, entries: seq<Entry>, i: nat)
    requires i < |entries| && OutcomeAt(w, rows, entries, i) == Imported
    ensures var req, id := entries[i].request, IdOf(entries[i].request.id, entries[i].generated);
            && AgentType(w, req.preset).Success?
            && FindRow(ImportRows(w, rows, entries), id) ==
               Some(Row(id, Trim(req.name), AgentType(w, req.preset).value, req.fields))
  {
    var n := |entries| - 1;
    var before, e := ImportRows(w, rows, entries[..n]), entries[n];
    if i < n {
      assert entries[..n][..i] == entries[..i];
      ImportedIsFound(w, rows, entries[..n], i);
      OneMoreEntry(w, before, e, IdOf(entries[i].request.id, entries[i].generated));
    } else {
      FindInFront(NewRow(w, e.request, e.generated), before, IdOf(e.request.id, e.generated));
    }
  }

  lemma OneMoreEntry(w: World, rows: seq<Row>, e: Entry, id: string)
    requires FindRow(rows, id).Some?
    ensures ImportOutcome(w, rows, e.request, e.generated, e.fault) == Imported ==>
              FindRow([NewRow(w, e.request, e.generated)] + rows, id) == FindRow(rows, id)
  {
    if ImportOutcome(w, rows, e.request, e.generated, e.fault) == Imported {
      FindInFront(NewRow(w, e.request, e.generated), rows, id);
    }
  }

  predicate FailsAt(w: World, rows: seq<Row>, entries: seq<Entry>, i: nat, error: ImportError)
    requires i < |entries|
  {
    && OutcomeAt(w, rows, entries, i) == Failed(error.error)
    && IdOf(entries[i].request.id, entries[i].generated) == error.id
  }

  lemma FailsInPrefix(w: World, rows: seq<Row>, entries: seq<Entry>, n: nat, i: nat, error: ImportError)
    requires i < n <= |entries|
    ensures FailsAt(w, rows, entries[..n], i, error) == FailsAt(w, rows, entries, i, error)
  {
    assert entries[..n][..i] == entries[..i];
  }

  lemma TallyLast(w: World, rows: seq<Row>, entries: seq<Entry>, error: ImportError)
    requires entries != []
    ensures error in ImportTally(w, rows, entries).errors <==>
            error in ImportTally(w, rows, entries[..|entries| - 1]).errors
            || FailsAt(w, rows, entries, |entries| - 1, error)
  {
    var n := |entries| - 1;
    TallyErrors(ImportTally(w, rows, entries[..n]), IdOf(entries[n].request.id, entries[n].generated),
                OutcomeAt(w, rows, entries, n), error);
  }

  lemma NoErrors(w: World, rows: seq<Row>)
    ensures ImportTally(w, rows, []).errors == []
  {
  }

  /** The errors name exactly the entries that failed, with the reason. */
  lemma {:induction false} ImportErrorsName(w: World, rows: seq<Row>, entries: seq<Entry>, error: ImportError)
    ensures error in ImportTally(w, rows, entries).errors <==>
            exists i :: 0 <= i < |entries| && FailsAt(w, rows, entries, i, error)
  {
    hide ImportTally, FailsAt;
    NoErrors(w, rows);
    if entries != [] {
      var n := |entries| - 1;
      ImportErrorsName(w, rows, entries[..n], error);
      TallyLast(w, rows, entries, error);
      forall i | 0 <= i < n ensures FailsAt(w, rows, entries[..n], i, error) == FailsAt(w, rows, entries, i, error) {
        FailsInPrefix(w, rows, entries, n, i, error);
      }
      if i :| 0 <= i < n && FailsAt(w, rows, entries[..n], i, error) {
        assert FailsAt(w, rows, entries, i, error);
      }
      if i :| 0 <= i < |entries| && FailsAt(w, rows, entries, i, error) && i < n {
        assert FailsAt(w, rows, entries[..n], i, error);
      }
    }
  }

  lemma TallyErrors(r: ImportResult, id: string, outcome: Outcome, error: ImportError)
    ensures error in Tally(r, id, outcome).errors <==>
            error in r.errors || (outcome == Failed(error.error) && error.id == id)
  {
  }

  /** An extension is shown as it is: enabled, first, never used, with the default agent type and no lists. */
  lemma ExtensionShown(w: World, st: Store, e: ExtensionAssistant)
    requires ExtensionsFit(w) && e in w.extensions
    ensures var r := GetResponse(w, st, e.id);
            && r.Success? && r.value.id == e.id && r.value.source == Extension && r.value.name == e.name
            && r.value.enabled && r.value.sortOrder == 0 && r.value.preset == "aionrs"
            && r.value.context == e.context && r.value.lastUsedAt == None
            && FieldOf(r.value.fields, Description) == e.description && FieldOf(r.value.fields, Avatar) == e.icon
            && forall f :: f != Description && f != Avatar ==> FieldOf(r.value.fields, f) == None
  {
    var i :| 0 <= i < |w.extensions| && w.extensions[i] == e;
    FindExtensionAt(w.extensions, i);
    assert FindBuiltin(w.builtins, e.id).None?;
  }

  /** A new or updated row comes first; the others keep their order. */
  lemma ChangedRowFirst(w: World, st: Store, id: string, update: UpdateRequest, req: CreateRequest, generated: string)
    ensures CreateError(w, st, req, generated).None? ==>
              var rows := Created(w, st, req, generated).rows;
              |rows| == |st.rows| + 1 && rows[1..] == st.rows && rows[0].id == IdOf(req.id, generated)
    ensures UpdateError(w, st, id, update).None? && ClassifySource(w, id) == User ==>
              var rows := Updated(w, st, id, update).rows;
              |rows| > 0 && rows[0].id == id && rows[1..] == WithoutRow(st.rows, id)
  {
  }

  /** Taking a row out leaves what was before it and after it as they were. */
  lemma {:induction false} WithoutRowCloses(before: seq<Row>, row: Row, after: seq<Row>)
    requires forall r | r in before + after :: r.id != row.id
    ensures WithoutRow(before + [row] + after, row.id) == before + after
  {
    if before == [] {
      NothingTaken(after, row.id);
      assert (before + [row] + after)[1..] == after && before + after == after;
    } else {
      var all := before + [row] + after;
      assert all[0] == before[0] && all[1..] == before[1..] + [row] + after;
      assert before + after == [before[0]] + (before[1..] + after);
      assert before[0] in before + after;
      WithoutRowCloses(before[1..], row, after);
    }
  }

  lemma {:induction false} NothingTaken(rows: seq<Row>, id: string)
    requires forall r | r in rows :: r.id != id
    ensures WithoutRow(rows, id) == rows
  {
    if rows != [] {
      assert rows[0] in rows;
      NothingTaken(rows[1..], id);
    }
  }
}
