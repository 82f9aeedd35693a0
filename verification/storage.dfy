/** The task history. The JSON file on disk is abstracted to what reading
    it yields (missing, undecodable, an exception that propagates, or a
    decoded list of records), and
    writing it to the decoded list it will hold afterwards. Every operation
    that lists the history parses each record with `from_dict`, which reads
    the clock once per record: the clock is the function `clock`, and the
    record at position i reads `clock(i)`. */
module Storage {
  import opened Results
  import opened Schemas

  /** What opening a file and `json.load` make of it: no file, a JSON syntax
      error, any other exception (an unreadable file, bytes that are not
      UTF-8, a top-level value that cannot be iterated as records), named by
      `error`, or the decoded value. */
  datatype JsonFile<T> = Missing | Undecodable | Raises(error: string) | Decoded(value: T)

  type History = JsonFile<seq<Record>>

  /** `_read_json(path, default)`: a missing file or invalid JSON reads as the
      default; only the JSON syntax error is caught, every other exception
      reaches the caller. */
  function ReadJson<T>(f: JsonFile<T>, fallback: T): (r: Result<T, string>)
    ensures f.Decoded? ==> r == Success(f.value)
    ensures (f.Missing? || f.Undecodable?) ==> r == Success(fallback)
    ensures f.Raises? ==> r == Failure(f.error)
  {
    match f
    case Decoded(v) => Success(v)
    case Raises(e) => Failure(e)
    case _ => Success(fallback)
  }

  /** `[Tarea.from_dict(item) for item in items[i:]]`, the first failing item
      raising its KeyError. */
  function ParseFrom(items: seq<Record>, i: nat, clock: nat -> string): (r: Result<seq<Tarea>, string>)
    requires i <= |items|
    decreases |items| - i
  {
    if i == |items| then Success([])
    else
      var t :- FromDict(items[i], clock(i));
      var rest :- ParseFrom(items, i + 1, clock);
      Success([t] + rest)
  }

  /** One step of the comprehension: the record at `i`, then the rest. */
  lemma ParseFromStep(items: seq<Record>, i: nat, clock: nat -> string)
    requires i < |items|
    ensures ParseFrom(items, i, clock)
         == if FromDict(items[i], clock(i)).Failure? then Failure(FromDict(items[i], clock(i)).error)
            else if ParseFrom(items, i + 1, clock).Failure? then Failure(ParseFrom(items, i + 1, clock).error)
            else Success([FromDict(items[i], clock(i)).value] + ParseFrom(items, i + 1, clock).value)
  {
  }

  /** Parsing succeeds exactly when every record has the required keys. */
  lemma {:induction false} ParseFromSucceeds(items: seq<Record>, i: nat, clock: nat -> string)
    requires i <= |items|
    ensures ParseFrom(items, i, clock).Success?
        <==> forall j :: i <= j < |items| ==> FromDict(items[j], clock(j)).Success?
    decreases |items| - i
  {
    if i < |items| {
      ParseFromStep(items, i, clock);
      ParseFromSucceeds(items, i + 1, clock);
    }
  }

  /** A successful parse yields one task per record, in stored order. */
  lemma {:induction false} ParseFromValues(items: seq<Record>, i: nat, clock: nat -> string)
    requires i <= |items|
    requires ParseFrom(items, i, clock).Success?
    ensures |ParseFrom(items, i, clock).value| == |items| - i
    ensures forall j :: i <= j < |items| ==>
              FromDict(items[j], clock(j)).Success?
              && ParseFrom(items, i, clock).value[j - i] == FromDict(items[j], clock(j)).value
    decreases |items| - i
  {
    if i < |items| {
      ParseFromStep(items, i, clock);
      ParseFromValues(items, i + 1, clock);
      var rest := ParseFrom(items, i + 1, clock).value;
      var r := ParseFrom(items, i, clock).value;
      assert r == [FromDict(items[i], clock(i)).value] + rest;
      forall j | i < j < |items|
        ensures r[j - i] == FromDict(items[j], clock(j)).value
      {
        assert r[j - i] == rest[j - (i + 1)];
      }
    }
  }

  /** The error is the one raised by the first record that cannot be parsed. */
  lemma {:induction false} ParseFromFailure(items: seq<Record>, i: nat, clock: nat -> string, j: nat)
    requires i <= j < |items|
    requires FromDict(items[j], clock(j)).Failure?
    requires forall m :: i <= m < j ==> FromDict(items[m], clock(m)).Success?
    ensures ParseFrom(items, i, clock) == Failure(FromDict(items[j], clock(j)).error)
    decreases j - i
  {
    ParseFromStep(items, i, clock);
    if i < j {
      ParseFromFailure(items, i + 1, clock, j);
    }
  }

  /** `[t.to_dict() for t in tareas]`. */
  function ToDicts(ts: seq<Tarea>): (ds: seq<Record>)
    ensures |ds| == |ts|
  {
    seq(|ts|, k requires 0 <= k < |ts| => ToDict(ts[k]))
  }

  /** Stored tasks parse back to themselves, whatever the clock says. */
  lemma ParseToDicts(ts: seq<Tarea>, i: nat, clock: nat -> string)
    requires i <= |ts|
    ensures ParseFrom(ToDicts(ts), i, clock) == Success(ts[i..])
  {
    var ds := ToDicts(ts);
    forall k | 0 <= k < |ts|
      ensures FromDict(ds[k], clock(k)) == Success(ts[k])
    {
      StoredParsesBack(ts, k, clock(k));
    }
    ParseEach(ds, ts, i, clock);
  }

  /** Records that each parse as the task at their position parse as the tasks. */
  lemma {:induction false} ParseEach(ds: seq<Record>, ts: seq<Tarea>, i: nat, clock: nat -> string)
    requires |ds| == |ts| && i <= |ts|
    requires forall k :: 0 <= k < |ts| ==> FromDict(ds[k], clock(k)) == Success(ts[k])
    ensures ParseFrom(ds, i, clock) == Success(ts[i..])
    decreases |ts| - i
  {
    if i < |ts| {
      ParseEach(ds, ts, i + 1, clock);
      ParseFromCons(ds, i, clock, ts[i], ts[i + 1..]);
      assert ts[i..] == [ts[i]] + ts[i + 1..];
    } else {
      assert ts[i..] == [];
    }
  }

  /** Each stored record reads back as the task it was written from. */
  lemma StoredParsesBack(ts: seq<Tarea>, i: nat, now: string)
    requires i < |ts|
    ensures FromDict(ToDicts(ts)[i], now) == Success(ts[i])
  {
    FromToDict(ts[i], now);
  }

  /** A record that parses, followed by records that parse, parses as one more task. */
  lemma ParseFromCons(items: seq<Record>, i: nat, clock: nat -> string, t: Tarea, rest: seq<Tarea>)
    requires i < |items|
    requires FromDict(items[i], clock(i)) == Success(t)
    requires ParseFrom(items, i + 1, clock) == Success(rest)
    ensures ParseFrom(items, i, clock) == Success([t] + rest)
  {
    ParseFromStep(items, i, clock);
  }

  /** `listar_tareas`: every stored record in stored order, no sorting; an
      exception from reading the file propagates. */
  function ListarTareas(f: History, clock: nat -> string): (r: Result<seq<Tarea>, string>)
    ensures (f.Missing? || f.Undecodable?) ==> r == Success([])
    ensures f.Raises? ==> r == Failure(f.error)
  {
    var items :- ReadJson(f, []);
    ParseFrom(items, 0, clock)
  }

  /** The listing is the stored records, each parsed, in the order they are stored. */
  lemma ListarInStoredOrder(items: seq<Record>, clock: nat -> string)
    requires ListarTareas(Decoded(items), clock).Success?
    ensures |ListarTareas(Decoded(items), clock).value| == |items|
    ensures forall k :: 0 <= k < |items| ==>
              FromDict(items[k], clock(k)).Success?
              && ListarTareas(Decoded(items), clock).value[k] == FromDict(items[k], clock(k)).value
  {
    ParseFromValues(items, 0, clock);
  }

  /** `guardar_tarea`: list the history, append, write it all back. A
      listing that fails leaves nothing written. */
  function GuardarTarea(f: History, t: Tarea, clock: nat -> string): (r: Result<History, string>)
    ensures r.Failure? <==> ListarTareas(f, clock).Failure?
    ensures r.Failure? ==> r.error == ListarTareas(f, clock).error
  {
    var ts :- ListarTareas(f, clock);
    Success(Decoded(ToDicts(ts + [t])))
  }

  /** `sobrescribir_tareas`: the whole history is replaced. */
  function SobrescribirTareas(ts: seq<Tarea>): History {
    Decoded(ToDicts(ts))
  }

  /** After overwriting, the history lists exactly the given tasks. */
  lemma SobrescribirLists(ts: seq<Tarea>, clock: nat -> string)
    ensures ListarTareas(SobrescribirTareas(ts), clock) == Success(ts)
  {
    ParseToDicts(ts, 0, clock);
  }

  /** Saving appends: the history afterwards is the one before followed by
      the new task, with no reordering and no merge by id. */
  lemma GuardarAppends(f: History, t: Tarea, clock: nat -> string, later: nat -> string)
    requires GuardarTarea(f, t, clock).Success?
    ensures ListarTareas(GuardarTarea(f, t, clock).value, later) == Success(ListarTareas(f, clock).value + [t])
  {
    ParseToDicts(ListarTareas(f, clock).value + [t], 0, later);
  }

  /** How many tasks carry the id. */
  function CountId(ts: seq<Tarea>, id: string): nat {
    if |ts| == 0 then 0 else (if ts[0].id == id then 1 else 0) + CountId(ts[1..], id)
  }

  lemma {:induction false} CountIdAppend(ts: seq<Tarea>, t: Tarea)
    ensures CountId(ts + [t], t.id) == CountId(ts, t.id) + 1
    decreases |ts|
  {
    if |ts| == 0 {
      assert ts + [t] == [t];
    } else {
      assert (ts + [t])[1..] == ts[1..] + [t];
      CountIdAppend(ts[1..], t);
    }
  }

  /** No duplicate check: saving a task whose id is already stored leaves
      one more task with that id. */
  lemma GuardarKeepsDuplicates(f: History, t: Tarea, clock: nat -> string)
    requires GuardarTarea(f, t, clock).Success?
    ensures ListarTareas(GuardarTarea(f, t, clock).value, clock).Success?
    ensures CountId(ListarTareas(GuardarTarea(f, t, clock).value, clock).value, t.id)
         == CountId(ListarTareas(f, clock).value, t.id) + 1
  {
    GuardarAppends(f, t, clock, clock);
    CountIdAppend(ListarTareas(f, clock).value, t);
  }

  /** `buscar_tarea_por_id`: the first listed task with the id, or none. */
  method BuscarTareaPorId(f: History, id: string, clock: nat -> string) returns (r: Result<Option<Tarea>, string>)
    ensures r.Failure? <==> ListarTareas(f, clock).Failure?
    ensures r.Success? ==> (r.value.None? <==> forall k :: 0 <= k < |ListarTareas(f, clock).value| ==> ListarTareas(f, clock).value[k].id != id)
    ensures r.Success? && r.value.Some? ==>
              exists k :: 0 <= k < |ListarTareas(f, clock).value|
                && ListarTareas(f, clock).value[k] == r.value.value && r.value.value.id == id
                && forall j :: 0 <= j < k ==> ListarTareas(f, clock).value[j].id != id
  {
    var listed := ListarTareas(f, clock);
    if listed.Failure? {
      return Failure(listed.error);
    }
    var ts := listed.value;
    var i := 0;
    while i < |ts|
      invariant 0 <= i <= |ts|
      invariant forall j :: 0 <= j < i ==> ts[j].id != id
    {
      if ts[i].id == id {
        return Success(Some(ts[i]));
      }
      i := i + 1;
    }
    return Success(None);
  }
}
