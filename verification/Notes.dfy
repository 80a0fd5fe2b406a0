/** Content-addressed notes of tasks (task/task.go, store/loadstorer.go, text/text.go).

    ID.Store and ID.Delete pass the resources of a task that has not been loaded yet
    (task.go:103, 160), so no text is ever deleted and every note is stored afresh. */
module Notes {
  import opened Options

  type ID = nat
  type TextID = nat

  /** HashWith: the text id of a note of a task. */
  type Hash = (ID, string) -> TextID

  datatype DB = DB(tasks: map<ID, seq<TextID>>, texts: map<TextID, string>)

  const EMPTY := DB(map[], map[])

  function Ids(h: Hash, i: ID, notes: seq<string>): seq<TextID> {
    seq(|notes|, j requires 0 <= j < |notes| => h(i, notes[j]))
  }

  /** The texts after the first n notes are stored. */
  function PutTexts(h: Hash, texts: map<TextID, string>, i: ID, notes: seq<string>, n: nat): map<TextID, string>
    requires n <= |notes|
  {
    if n == 0 then texts else PutTexts(h, texts, i, notes, n - 1)[h(i, notes[n - 1]) := notes[n - 1]]
  }

  function Store(h: Hash, db: DB, i: ID, notes: seq<string>): DB {
    DB(db.tasks[i := Ids(h, i, notes)], PutTexts(h, db.texts, i, notes, |notes|))
  }

  function Delete(db: DB, i: ID): DB {
    db.(tasks := db.tasks - {i})
  }

  datatype Loaded = NoTask | MissingText | Notes(notes: seq<string>)

  function Load(db: DB, i: ID): Loaded {
    if i !in db.tasks then NoTask
    else
      var rs := db.tasks[i];
      if exists j :: 0 <= j < |rs| && rs[j] !in db.texts then MissingText
      else Notes(seq(|rs|, j requires 0 <= j < |rs| && rs[j] in db.texts => db.texts[rs[j]]))
  }

  /* ---------- as the code does it ---------- */

  class TaskBucket {
    const h: Hash
    var tasks: map<ID, seq<TextID>>
    var texts: map<TextID, string>

    function Db(): DB
      reads this
    {
      DB(tasks, texts)
    }

    constructor (h: Hash)
      ensures this.h == h && Db() == EMPTY
    {
      this.h := h;
      tasks, texts := map[], map[];
    }

    /** StoreResources (task.go:168-206): notes already among the known ids are queued for
        deletion, the others for storing. */
    method StoreResources(i: ID, what: seq<string>, known: seq<TextID>)
      returns (resources: seq<TextID>, toStore: seq<string>, toDelete: seq<TextID>)
      ensures |resources| == |toStore| && |resources| + |toDelete| == |what|
      ensures forall j :: 0 <= j < |resources| ==> resources[j] == h(i, toStore[j]) && resources[j] !in known
      ensures forall j :: 0 <= j < |toDelete| ==> toDelete[j] in known
      ensures known == [] ==> toStore == what && resources == Ids(h, i, what) && toDelete == []
    {
      resources, toStore, toDelete := [], [], [];
      for j := 0 to |what|
        invariant |resources| == |toStore| && |resources| + |toDelete| == j
        invariant forall k :: 0 <= k < |resources| ==> resources[k] == h(i, toStore[k]) && resources[k] !in known
        invariant forall k :: 0 <= k < |toDelete| ==> toDelete[k] in known
        invariant known == [] ==> toStore == what[..j] && toDelete == []
      {
        var id := h(i, what[j]);
        if id !in known {
          resources, toStore := resources + [id], toStore + [what[j]];
        } else {
          toDelete := toDelete + [id];
        }
      }
      assert what[..|what|] == what;
    }

    /** Storers.StoreAll (loadstorer.go:46-66) on text ids. */
    method StoreAll(i: ID, ids: seq<TextID>, what: seq<string>)
      requires ids == Ids(h, i, what)
      modifies this`texts
      ensures texts == PutTexts(h, old(texts), i, what, |what|)
    {
      for j := 0 to |ids|
        invariant texts == PutTexts(h, old(texts), i, what, j)
      {
        texts := texts[ids[j] := what[j]];
      }
    }

    /** Deleters.DeleteAll (loadstorer.go:91-99) on text ids. */
    method DeleteAll(ids: seq<TextID>)
      modifies this`texts
      ensures texts == old(texts) - set j | 0 <= j < |ids| :: ids[j]
    {
      for j := 0 to |ids|
        invariant texts == old(texts) - set k | 0 <= k < j :: ids[k]
      {
        texts := texts - {ids[j]};
      }
    }

    /** ID.Store (task.go:91-106). */
    method StoreTask(i: ID, notes: seq<string>)
      modifies this
      ensures Db() == Store(h, old(Db()), i, notes)
    {
      var resources, toStore, toDelete := StoreResources(i, notes, []);
      StoreAll(i, resources, toStore);
      DeleteAll(toDelete);
      tasks := tasks[i := resources];
    }

    /** ID.Load and Loaders.LoadAll (task.go:109-148, loadstorer.go:69-89). */
    method LoadTask(i: ID) returns (r: Loaded)
      ensures r == Load(Db(), i)
    {
      if i !in tasks {
        return NoTask;
      }
      var rs := tasks[i];
      var notes: seq<string> := [];
      for j := 0 to |rs|
        invariant |notes| == j
        invariant forall k :: 0 <= k < j ==> rs[k] in texts && notes[k] == texts[rs[k]]
      {
        if rs[j] !in texts {
          return MissingText;
        }
        notes := notes + [texts[rs[j]]];
      }
      r := Notes(notes);
    }

    /** ID.Delete (task.go:151-163). */
    method DeleteTask(i: ID)
      modifies this`tasks
      ensures Db() == Delete(old(Db()), i)
    {
      tasks := tasks - {i};
    }
  }

  /* ---------- runs ---------- */

  datatype Event = Stored(i: ID, notes: seq<string>) | Deleted(i: ID)

  function Step(h: Hash, db: DB, e: Event): DB {
    match e
    case Stored(i, notes) => Store(h, db, i, notes)
    case Deleted(i) => Delete(db, i)
  }

  function Run(h: Hash, events: seq<Event>, n: nat): DB
    requires n <= |events|
  {
    if n == 0 then EMPTY else Step(h, Run(h, events, n - 1), events[n - 1])
  }

  /** The notes of the latest Store of task i, unless it was deleted since. */
  function Latest(events: seq<Event>, n: nat, i: ID): Option<seq<string>>
    requires n <= |events|
  {
    if n == 0 then None
    else if events[n - 1].i != i then Latest(events, n - 1, i)
    else match events[n - 1] case Stored(_, notes) => Some(notes) case Deleted(_) => None
  }

  /** No id stands for two different texts, whatever tasks they belong to. */
  ghost predicate TextInjective(h: Hash) {
    forall i, s, j, t :: h(i, s) == h(j, t) ==> s == t
  }

  /** Load gives back the latest Store. */
  predicate Faithful(h: Hash, events: seq<Event>, n: nat, i: ID)
    requires n <= |events|
  {
    match Latest(events, n, i)
    case None => Load(Run(h, events, n), i) == NoTask
    case Some(notes) => Load(Run(h, events, n), i) == Notes(notes)
  }

  /** Task i holds the ids of notes, and each id leads to its note. */
  ghost predicate Holds(h: Hash, db: DB, i: ID, notes: seq<string>) {
    && i in db.tasks && db.tasks[i] == Ids(h, i, notes)
    && forall j :: 0 <= j < |notes| ==> h(i, notes[j]) in db.texts && db.texts[h(i, notes[j])] == notes[j]
  }

  lemma HoldsLoads(h: Hash, db: DB, i: ID, notes: seq<string>)
    requires Holds(h, db, i, notes)
    ensures Load(db, i) == Notes(notes)
  {
  }

  /** Storing more notes never changes what an id already led to. */
  lemma {:induction false} PutKeeps(h: Hash, texts: map<TextID, string>, i: ID, notes: seq<string>, n: nat,
                                    j: ID, t: string)
    requires TextInjective(h) && n <= |notes|
    requires (h(j, t) in texts && texts[h(j, t)] == t) || (i == j && t in notes[..n])
    ensures var m := PutTexts(h, texts, i, notes, n); h(j, t) in m && m[h(j, t)] == t
  {
    if n > 0 {
      var s := notes[n - 1];
      assert notes[..n] == notes[..n - 1] + [s];
      if i == j && t == s {
      } else {
        PutKeeps(h, texts, i, notes, n - 1, j, t);
      }
    }
  }

  lemma {:induction false} RunHolds(h: Hash, events: seq<Event>, n: nat, i: ID)
    requires TextInjective(h) && n <= |events|
    ensures match Latest(events, n, i)
            case None => i !in Run(h, events, n).tasks
            case Some(notes) => Holds(h, Run(h, events, n), i, notes)
  {
    if n > 0 {
      RunHolds(h, events, n - 1, i);
      var db, e := Run(h, events, n - 1), events[n - 1];
      if e.Stored? {
        var latest := Latest(events, n, i);
        if latest.Some? {
          forall j | 0 <= j < |latest.value|
            ensures var m := PutTexts(h, db.texts, e.i, e.notes, |e.notes|);
                    h(i, latest.value[j]) in m && m[h(i, latest.value[j])] == latest.value[j]
          {
            assert e.notes[..|e.notes|] == e.notes;
            PutKeeps(h, db.texts, e.i, e.notes, |e.notes|, i, latest.value[j]);
          }
        }
      }
    }
  }

  /** After any run of Store and Delete on any tasks, Load of a live task gives the notes of its
      latest Store, in order and with duplicates. */
  lemma NotesSurvive(h: Hash, events: seq<Event>, n: nat, i: ID)
    requires TextInjective(h) && n <= |events|
    ensures Faithful(h, events, n, i)
  {
    RunHolds(h, events, n, i);
    var latest := Latest(events, n, i);
    if latest.Some? {
      HoldsLoads(h, Run(h, events, n), i, latest.value);
    }
  }

  /** Two texts under one id: storing the second loses the first. */
  lemma CollisionLoses(h: Hash, i: ID, s: string, j: ID, t: string)
    requires h(i, s) == h(j, t) && s != t
    ensures exists events, n: nat, k :: n <= |events| && !Faithful(h, events, n, k)
  {
    if i == j {
      var es := [Stored(i, [s, t])];
      var db := Run(h, es, 1);
      assert Run(h, es, 0) == EMPTY;
      assert PutTexts(h, map[], i, [s, t], 1) == map[h(i, s) := s];
      assert db.texts == map[h(i, s) := t];
      assert db.tasks[i][0] == h(i, s);
      assert Load(db, i).Notes? ==> Load(db, i).notes[0] == t;
      assert Latest(es, 1, i) == Some([s, t]);
      assert !Faithful(h, es, 1, i);
    } else {
      var es := [Stored(i, [s]), Stored(j, [t])];
      var one, db := Run(h, es, 1), Run(h, es, 2);
      assert Run(h, es, 0) == EMPTY;
      assert PutTexts(h, map[], i, [s], 0) == map[];
      assert one == DB(map[i := Ids(h, i, [s])], map[h(i, s) := s]);
      assert PutTexts(h, one.texts, j, [t], 0) == one.texts;
      assert db.texts == map[h(i, s) := t];
      assert db.tasks[i][0] == h(i, s);
      assert Load(db, i).Notes? ==> Load(db, i).notes[0] == t;
      assert Latest(es, 1, i) == Some([s]) && Latest(es, 2, i) == Some([s]);
      assert !Faithful(h, es, 2, i);
    }
  }

  /** Exactly: notes survive every run if and only if the hash keeps texts apart. */
  lemma NotesSurviveIff(h: Hash)
    ensures TextInjective(h) <==> forall events, n: nat, i :: n <= |events| ==> Faithful(h, events, n, i)
  {
    if TextInjective(h) {
      forall events, n: nat, i | n <= |events| ensures Faithful(h, events, n, i) { NotesSurvive(h, events, n, i); }
    } else {
      var i, s, j, t :| h(i, s) == h(j, t) && s != t;
      CollisionLoses(h, i, s, j, t);
    }
  }
}
