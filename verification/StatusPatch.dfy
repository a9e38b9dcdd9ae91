/** Patching a status under an optimistic lock while other writers are active. */
module StatusPatch {
  import opened Basics
  import opened Conditions

  // --------------------------------------------------------- merge patches

  datatype Change<+V> = Put(value: V) | Erase

  /** The merge patch that leads from one document to another; a list is one value. */
  function Diff<V(==)>(base: map<string, V>, next: map<string, V>): map<string, Change<V>> {
    map f | f in base.Keys + next.Keys && !(f in base && f in next && base[f] == next[f]) ::
      if f in next then Put(next[f]) else Erase
  }

  function ApplyPatch<V>(target: map<string, V>, patch: map<string, Change<V>>): map<string, V> {
    map f | f in target.Keys + patch.Keys && (f in patch ==> patch[f].Put?) ::
      if f in patch then patch[f].value else target[f]
  }

  /** Applied to the very document it was computed from, a patch reproduces the result. */
  lemma PatchRoundTrip<V>(base: map<string, V>, next: map<string, V>)
    ensures ApplyPatch(base, Diff(base, next)) == next
  {
    var r := ApplyPatch(base, Diff(base, next));
    forall f ensures f in r <==> f in next {}
    forall f | f in r ensures r[f] == next[f] {}
  }

  /** Applied to a document that has moved on, it keeps the other writer's value of a field
      exactly when the writers agree on it or this one did not change it. */
  lemma BlindPatch<V>(base: map<string, V>, next: map<string, V>, current: map<string, V>, f: string)
    requires f in base && f in next && f in current
    ensures f in ApplyPatch(current, Diff(base, next))
    ensures ApplyPatch(current, Diff(base, next))[f] == current[f] <==> base[f] == next[f] || next[f] == current[f]
  {
  }

  // --------------------------------------------------------------- writers

  /** A committed document and whether this writer committed it. */
  datatype Commit<+V> = Commit(mine: bool, doc: map<string, V>)

  /** What happens during one attempt: the documents others commit between its read and its
      write, and whether one of its two requests fails for a reason other than a conflict. */
  datatype Turn<+V> = Turn(others: seq<map<string, V>>, getFails: bool, patchFails: bool)

  datatype Verdict = Patched | GetError | PatchError | Conflict

  const ATTEMPTS := 10

  /** How a sequence of turns goes: its end, and what the others commit until then. */
  datatype Course<+V> = Course(verdict: Verdict, others: seq<map<string, V>>)

  function CourseOf<V>(turns: seq<Turn<V>>): Course<V> {
    if turns == [] then Course(Conflict, [])
    else if turns[0].getFails then Course(GetError, [])
    else if turns[0].patchFails then Course(PatchError, turns[0].others)
    else if turns[0].others == [] then Course(Patched, [])
    else
      var rest := CourseOf(turns[1..]);
      Course(rest.verdict, turns[0].others + rest.others)
  }

  /** An attempt that ends in a conflict: no request fails, but somebody else commits. */
  predicate Beaten<V>(t: Turn<V>) { !t.getFails && !t.patchFails && t.others != [] }

  /** The first attempt that is not beaten decides: it is patched exactly if none of its requests
      fails. If all are beaten the retries are used up. */
  lemma {:induction false} CourseExactly<V>(turns: seq<Turn<V>>, k: nat)
    requires k <= |turns| && forall i :: 0 <= i < k ==> Beaten(turns[i])
    ensures k == |turns| ==> CourseOf(turns).verdict == Conflict
    ensures k < |turns| && !Beaten(turns[k]) ==>
              && (CourseOf(turns).verdict == Patched <==> !turns[k].getFails && !turns[k].patchFails)
              && (CourseOf(turns).verdict == GetError <==> turns[k].getFails)
              && (CourseOf(turns).verdict == PatchError <==> !turns[k].getFails && turns[k].patchFails)
  {
    if k > 0 {
      assert Beaten(turns[0]);
      CourseExactly(turns[1..], k - 1);
    }
  }

  function Theirs<V>(docs: seq<map<string, V>>): seq<Commit<V>> {
    seq(|docs|, i requires 0 <= i < |docs| => Commit(false, docs[i]))
  }

  class ApiServer<V(==)> {
    /** Every commit so far; its length is the resource version. */
    var log: seq<Commit<V>>

    ghost predicate Valid()
      reads this
    { log != [] }

    function Doc(): map<string, V>
      reads this
      requires log != []
    { log[|log| - 1].doc }

    method Interfere(others: seq<map<string, V>>)
      requires Valid()
      modifies this
      ensures Valid() && log == old(log) + Theirs(others)
    {
      for k := 0 to |others|
        invariant log == old(log) + Theirs(others)[..k]
      {
        log := log + [Commit(false, others[k])];
      }
    }

    /** Applies a patch if the version still matches. */
    method PatchAt(version: nat, patch: map<string, Change<V>>) returns (ok: bool)
      requires Valid()
      modifies this
      ensures Valid() && ok == (version == |old(log)|)
      ensures ok ==> log == old(log) + [Commit(true, ApplyPatch(old(Doc()), patch))]
      ensures !ok ==> log == old(log)
    {
      ok := version == |log|;
      if ok {
        log := log + [Commit(true, ApplyPatch(Doc(), patch))];
      }
    }

    /** One attempt: None if it is beaten. */
    method Attempt(update: map<string, V> -> map<string, V>, turn: Turn<V>) returns (r: Option<Verdict>)
      requires Valid()
      modifies this
      ensures Valid() && r == if Beaten(turn) then None else Some(CourseOf([turn]).verdict)
      ensures log == if Beaten(turn) then old(log) + Theirs(turn.others)
              else AfterCourse(old(log), CourseOf([turn]), update)
    {
      assert Theirs<V>([]) == [] && log + [] == log;
      if turn.getFails {
        return Some(GetError);
      }
      var base, version := Doc(), |log|;
      var next := update(base);
      Interfere(turn.others);
      if turn.patchFails {
        return Some(PatchError);
      }
      PatchRoundTrip(base, next);
      var ok := PatchAt(version, Diff(base, next));
      return if ok then Some(Patched) else None;
    }

    /** Reads, updates a copy and writes it back, up to ten times while the write conflicts.
        Whatever the others do, this writer commits at most once, as the last commit, and
        what it commits is its update of the document directly before. */
    method PatchWithRetry(update: map<string, V> -> map<string, V>, turns: seq<Turn<V>>) returns (r: Verdict)
      requires Valid() && |turns| == ATTEMPTS
      modifies this
      ensures Valid() && old(log) <= log
      ensures r.Patched? ==> |old(log)| < |log| && log[|log| - 1] == Commit(true, update(log[|log| - 2].doc))
      ensures forall i :: |old(log)| <= i < |log| - (if r.Patched? then 1 else 0) ==> !log[i].mine
      ensures r.Conflict? ==> forall t :: 0 <= t < ATTEMPTS ==> turns[t].others != []
      ensures r == CourseOf(turns).verdict && log == AfterCourse(old(log), CourseOf(turns), update)
    {
      r := Retry(update, turns);
      CourseMeans(old(log), CourseOf(turns), update);
      ConflictMeans(turns);
    }

    method Retry(update: map<string, V> -> map<string, V>, turns: seq<Turn<V>>) returns (r: Verdict)
      requires Valid()
      modifies this
      ensures r == CourseOf(turns).verdict && log == AfterCourse(old(log), CourseOf(turns), update)
    {
      ghost var done := [];
      for t := 0 to |turns|
        invariant Valid() && log == old(log) + Theirs(done)
        invariant CourseOf(turns) == Later(done, CourseOf(turns[t..]))
      {
        NextTurn(done, turns[t..]);
        assert turns[t..][1..] == turns[t + 1..];
        var v := Attempt(update, turns[t]);
        if v.Some? {
          AttemptEnds(old(log), done, turns[t], update);
          return v.value;
        }
        assert old(log) + Theirs(done) + Theirs(turns[t].others) == old(log) + Theirs(done + turns[t].others);
        done := done + turns[t].others;
      }
      return Conflict;
    }
  }

  lemma {:induction false} ConflictMeans<V>(turns: seq<Turn<V>>)
    ensures CourseOf(turns).verdict.Conflict? ==> forall t :: 0 <= t < |turns| ==> turns[t].others != []
  {
    if turns != [] {
      ConflictMeans(turns[1..]);
      assert forall t :: 0 < t < |turns| ==> turns[t] == turns[1..][t - 1];
    }
  }

  /** The log at the end of a course: what the others have committed, and at most one commit of this
      writer on top, its update of the document directly before. */
  function AfterCourse<V>(log: seq<Commit<V>>, c: Course<V>, update: map<string, V> -> map<string, V>): seq<Commit<V>>
    requires log != []
  {
    var all := log + Theirs(c.others);
    if c.verdict.Patched? then all + [Commit(true, update(all[|all| - 1].doc))] else all
  }

  lemma CourseMeans<V>(log: seq<Commit<V>>, c: Course<V>, update: map<string, V> -> map<string, V>)
    requires log != []
    ensures var after := AfterCourse(log, c, update);
            && log <= after
            && (c.verdict.Patched? ==>
                  |log| < |after| && after[|after| - 1] == Commit(true, update(after[|after| - 2].doc)))
            && forall i :: |log| <= i < |after| - (if c.verdict.Patched? then 1 else 0) ==> !after[i].mine
  {
  }

  lemma AttemptEnds<V>(log: seq<Commit<V>>, done: seq<map<string, V>>, turn: Turn<V>,
                       update: map<string, V> -> map<string, V>)
    requires log != [] && !Beaten(turn)
    ensures AfterCourse(log + Theirs(done), CourseOf([turn]), update)
            == AfterCourse(log, Later(done, CourseOf([turn])), update)
  {
    var more := CourseOf([turn]).others;
    assert Theirs(done + more) == Theirs(done) + Theirs(more);
    assert log + Theirs(done) + Theirs(more) == log + Theirs(done + more);
  }

  function Later<V>(done: seq<map<string, V>>, c: Course<V>): Course<V> { Course(c.verdict, done + c.others) }

  lemma NextTurn<V>(done: seq<map<string, V>>, turns: seq<Turn<V>>)
    requires turns != []
    ensures Beaten(turns[0]) ==> Later(done, CourseOf(turns)) == Later(done + turns[0].others, CourseOf(turns[1..]))
    ensures !Beaten(turns[0]) ==> CourseOf(turns) == CourseOf([turns[0]])
    ensures Theirs(done) + Theirs(turns[0].others) == Theirs(done + turns[0].others)
    ensures Theirs(done) + [] == Theirs(done + [])
  {
    var more := turns[0].others;
    assert Theirs(done + more) == Theirs(done) + Theirs(more);
    assert done + [] == done;
  }

  // ------------------------------------------------------ many writers at once

  /** A document some writer has fetched, with its version. */
  datatype Session<+V> = Session(version: nat, base: map<string, V>)

  /** Any number of writers: all committed documents, the edits that made them, and what each
      writer has in hand. */
  datatype Shared<!V> = Shared(log: seq<map<string, V>>, edits: seq<map<string, V> -> map<string, V>>,
                               sessions: map<nat, Session<V>>)

  /** A writer fetches the document, or sends the patch of an edit it made to its copy; or a
      server-side apply edits whatever the document is, without a version check. */
  datatype Move<!V> =
    | Fetch(writer: nat)
    | Submit(writer: nat, edit: map<string, V> -> map<string, V>)
    | Apply(edit: map<string, V> -> map<string, V>)

  function Play<V(==)>(s: Shared<V>, m: Move<V>): Shared<V>
    requires s.log != []
  {
    var doc, version := s.log[|s.log| - 1], |s.log|;
    match m
    case Fetch(w) => s.(sessions := s.sessions[w := Session(version, doc)])
    case Apply(edit) => s.(log := s.log + [edit(doc)], edits := s.edits + [edit])
    case Submit(w, edit) =>
      if w !in s.sessions || s.sessions[w].version != version then s
      else
        var base := s.sessions[w].base;
        s.(log := s.log + [ApplyPatch(doc, Diff(base, edit(base)))], edits := s.edits + [edit])
  }

  /** Every commit is its edit of the document directly before, and writers hold documents that
      were current at their version. */
  ghost predicate Coherent<V>(s: Shared<V>) {
    && |s.log| == |s.edits| + 1
    && (forall i :: 0 <= i < |s.edits| ==> s.log[i + 1] == s.edits[i](s.log[i]))
    && (forall w :: w in s.sessions ==>
          var x := s.sessions[w]; 1 <= x.version <= |s.log| && x.base == s.log[x.version - 1])
  }

  lemma PlayKeepsCoherent<V>(s: Shared<V>, m: Move<V>)
    requires Coherent(s)
    ensures Coherent(Play(s, m)) && Play(s, m).log[0] == s.log[0]
  {
    if m.Submit? && m.writer in s.sessions && s.sessions[m.writer].version == |s.log| {
      PatchRoundTrip(s.log[|s.log| - 1], m.edit(s.log[|s.log| - 1]));
    }
  }

  ghost predicate IsPlay<V>(states: seq<Shared<V>>, moves: seq<Move<V>>) {
    && |states| == |moves| + 1
    && |states[0].log| == 1 && states[0].edits == [] && states[0].sessions == map[]
    && (forall i :: 0 <= i < |states| ==> states[i].log != [])
    && forall i :: 0 <= i < |moves| ==> states[i + 1] == Play(states[i], moves[i])
  }

  /** In every interleaving each commit is atomic: exactly its edit of the document before it. */
  lemma {:induction false} CommitsAreAtomic<V>(states: seq<Shared<V>>, moves: seq<Move<V>>, i: nat)
    requires IsPlay(states, moves) && i < |states|
    ensures Coherent(states[i]) && states[i].log[0] == states[0].log[0]
  {
    if i > 0 {
      CommitsAreAtomic(states, moves, i - 1);
      PlayKeepsCoherent(states[i - 1], moves[i - 1]);
      assert states[i - 1 + 1] == Play(states[i - 1], moves[i - 1]);
    }
  }

  // ------------------------------------------------- the shared condition list

  function ListOf(doc: map<string, seq<Entry>>): seq<Entry> {
    if "conditions" in doc then doc["conditions"] else []
  }

  /** The update every patching controller makes: one condition in the shared list. */
  function WithCondition(doc: map<string, seq<Entry>>, e: Entry, now: nat): map<string, seq<Entry>> {
    doc["conditions" := Upsert(ListOf(doc), e, now)]
  }

  /** What an edit does to the condition list: a patching controller sets one condition, an apply
      replaces all conditions its writer owns. An update without a type leaves the list alone. */
  datatype ListEdit = SetOne(update: Update) | ReplaceOwn(payload: seq<Entry>, owned: set<ConditionType>)

  function Edited(list: seq<Entry>, e: ListEdit): seq<Entry> {
    match e
    case SetOne(u) => Upsert(list, u.entry, u.now)
    case ReplaceOwn(payload, owned) => Applied(list, payload, owned)
  }

  /** The same edit seen by one type alone. */
  function EditedOne(before: Option<Entry>, e: ListEdit, t: ConditionType): Option<Entry> {
    match e
    case SetOne(u) => if u.entry.kind == Some(t) then Some(Merged(before, u.entry, u.now)) else before
    case ReplaceOwn(payload, owned) => if t in owned then Lookup(payload, t) else before
  }

  /** An apply payload has one entry per type, and only of types its writer owns. */
  ghost predicate ValidEdit(e: ListEdit) {
    e.ReplaceOwn? ==> OnePerType(e.payload) && forall x :: x in e.payload ==> x.kind.value in e.owned
  }

  lemma {:induction false} AbsentLookup(entries: seq<Entry>, t: ConditionType)
    requires forall e :: e in entries ==> e.kind != Some(t)
    ensures Lookup(entries, t).None?
  {
    if entries != [] {
      AbsentLookup(entries[1..], t);
    }
  }

  lemma EditIsMapUpdate(list: seq<Entry>, e: ListEdit, t: ConditionType)
    requires OnePerType(list) && ValidEdit(e) && !t.Unnamed?
    ensures OnePerType(Edited(list, e)) && Lookup(Edited(list, e), t) == EditedOne(Lookup(list, t), e, t)
  {
    match e
    case SetOne(u) =>
      UpsertKeepsOnePerType(list, u.entry, u.now);
      UpsertIsMapUpdate(list, u.entry, u.now, t);
    case ReplaceOwn(payload, owned) =>
      if t !in owned {
        AbsentLookup(payload, t);
      }
      AppliedOnePerType(list, payload, owned);
      LookupApplied(list, payload, owned, t);
  }

  /** The list, and one type of it, after a sequence of edits. */
  function EditAll(list: seq<Entry>, es: seq<ListEdit>): seq<Entry> {
    if es == [] then list else Edited(EditAll(list, es[..|es| - 1]), es[|es| - 1])
  }

  function EditAllOne(before: Option<Entry>, es: seq<ListEdit>, t: ConditionType): Option<Entry> {
    if es == [] then before else EditedOne(EditAllOne(before, es[..|es| - 1], t), es[|es| - 1], t)
  }

  lemma {:induction false} EditsRefineMap(list: seq<Entry>, es: seq<ListEdit>, t: ConditionType)
    requires OnePerType(list) && !t.Unnamed? && forall e :: e in es ==> ValidEdit(e)
    ensures OnePerType(EditAll(list, es)) && Lookup(EditAll(list, es), t) == EditAllOne(Lookup(list, t), es, t)
  {
    if es != [] {
      var n := |es| - 1;
      EditsRefineMap(list, es[..n], t);
      EditIsMapUpdate(EditAll(list, es[..n]), es[n], t);
    }
  }

  /** Whatever else they do, the committed edits do this to the condition list, one each. */
  ghost predicate MakeEdits(edits: seq<map<string, seq<Entry>> -> map<string, seq<Entry>>>, es: seq<ListEdit>) {
    && |es| == |edits|
    && (forall e :: e in es ==> ValidEdit(e))
    && forall i, doc :: 0 <= i < |edits| ==> ListOf(edits[i](doc)) == Edited(ListOf(doc), es[i])
  }

  lemma {:induction false} ListsFollow(lists: seq<seq<Entry>>, es: seq<ListEdit>, n: nat)
    requires n <= |es| < |lists|
    requires forall i :: 0 <= i < |es| ==> lists[i + 1] == Edited(lists[i], es[i])
    ensures lists[n] == EditAll(lists[0], es[..n])
  {
    if n > 0 {
      ListsFollow(lists, es, n - 1);
      assert es[..n][..n - 1] == es[..n - 1];
      assert lists[n - 1 + 1] == Edited(lists[n - 1], es[n - 1]);
    }
  }

  lemma LogFollows(s: Shared<seq<Entry>>, es: seq<ListEdit>)
    requires Coherent(s) && MakeEdits(s.edits, es)
    ensures ListOf(s.log[|es|]) == EditAll(ListOf(s.log[0]), es)
  {
    var lists := seq(|s.log|, i requires 0 <= i < |s.log| => ListOf(s.log[i]));
    forall i | 0 <= i < |es| ensures lists[i + 1] == Edited(lists[i], es[i]) {
      assert s.log[i + 1] == s.edits[i](s.log[i]);
    }
    ListsFollow(lists, es, |es|);
    assert es[..|es|] == es;
  }

  /** Writers never lose each other's conditions. In every interleaving of any number of patching
      and applying writers the list is what the committed edits make of it one after the other,
      so each type has the entry that the edits of this type give it. */
  lemma LockKeepsAll(states: seq<Shared<seq<Entry>>>, moves: seq<Move<seq<Entry>>>, i: nat, es: seq<ListEdit>,
                     t: ConditionType)
    requires IsPlay(states, moves) && i < |states| && MakeEdits(states[i].edits, es)
    requires OnePerType(ListOf(states[0].log[0])) && !t.Unnamed?
    ensures var first, last := ListOf(states[0].log[0]), ListOf(states[i].log[|states[i].log| - 1]);
            && last == EditAll(first, es) && OnePerType(last)
            && Lookup(last, t) == EditAllOne(Lookup(first, t), es, t)
  {
    CommitsAreAtomic(states, moves, i);
    LogFollows(states[i], es);
    EditsRefineMap(ListOf(states[0].log[0]), es, t);
  }

  predicate Touches(e: ListEdit, t: ConditionType) {
    match e
    case SetOne(u) => u.entry.kind == Some(t)
    case ReplaceOwn(_, owned) => t in owned
  }

  /** In particular a condition stays as some commit left it while no later one is about its type. */
  lemma {:induction false} UntouchedStays(before: Option<Entry>, es: seq<ListEdit>, t: ConditionType, m: nat)
    requires m <= |es| && forall k :: m <= k < |es| ==> !Touches(es[k], t)
    ensures EditAllOne(before, es, t) == EditAllOne(before, es[..m], t)
  {
    if m == |es| {
      assert es[..m] == es;
    } else {
      var n := |es| - 1;
      UntouchedStays(before, es[..n], t, m);
      assert es[..n][..m] == es[..m];
    }
  }

  /** Without the lock the second patch, computed from the same base, wipes out the first
      writer's new condition, because the list is replaced as a whole. */
  lemma BlindPatchLosesCondition(doc: map<string, seq<Entry>>, a: Entry, b: Entry, now: nat)
    requires "conditions" in doc && Named(a) && Named(b) && a.kind != b.kind
    requires Lookup(doc["conditions"], a.kind.value).None? && Lookup(doc["conditions"], b.kind.value).None?
    ensures var first := WithCondition(doc, a, now);
            var r := ApplyPatch(first, Diff(doc, WithCondition(doc, b, now)));
            "conditions" in r && Lookup(r["conditions"], a.kind.value).None?
  {
    var l0 := doc["conditions"];
    UpsertIsMapUpdate(l0, b, now, a.kind.value);
    UpsertIsMapUpdate(l0, b, now, b.kind.value);
    assert Upsert(l0, b, now) != l0;
  }
}
