/** The task record kept in the history: its nine required fields, the
    generated prompt and the creation timestamp, and its conversion to and
    from the string-keyed dictionary that is stored as JSON. The wall clock
    the record falls back on is a parameter (`now`). */
module Schemas {
  import opened Results

  datatype Tarea = Tarea(
    id: string,
    usuario: string,
    contexto: string,
    area: string,
    objetivo: string,
    entradas: string,
    restricciones: string,
    formatoSalida: string,
    prioridad: string,
    promptGenerado: string,
    createdAt: string)

  /** A stored task: a JSON object whose values are strings. */
  type Record = map<string, string>

  /** The keys `from_dict` reads with `data[key]`, in the order it reads them. */
  const RequiredKeys: seq<string> :=
    ["id", "usuario", "contexto", "area", "objetivo", "entradas", "restricciones", "formato_salida", "prioridad"]

  /** Every key `to_dict` writes. */
  const AllKeys: set<string> :=
    {"id", "usuario", "contexto", "area", "objetivo", "entradas", "restricciones", "formato_salida",
     "prioridad", "prompt_generado", "created_at"}

  /** The dataclass constructor with the two defaulted fields left out:
      no prompt yet, and the creation time taken from the clock. */
  function NewTarea(id: string, usuario: string, contexto: string, area: string, objetivo: string,
                    entradas: string, restricciones: string, formatoSalida: string, prioridad: string,
                    now: string): Tarea
  {
    Tarea(id, usuario, contexto, area, objetivo, entradas, restricciones, formatoSalida, prioridad, "", now)
  }

  /** `to_dict`. */
  function ToDict(t: Tarea): (d: Record)
    ensures d.Keys == AllKeys
  {
    map["id" := t.id, "usuario" := t.usuario, "contexto" := t.contexto, "area" := t.area,
        "objetivo" := t.objetivo, "entradas" := t.entradas, "restricciones" := t.restricciones,
        "formato_salida" := t.formatoSalida, "prioridad" := t.prioridad,
        "prompt_generado" := t.promptGenerado, "created_at" := t.createdAt]
  }

  /** `data[key]`: a missing key raises KeyError naming it. */
  function Field(d: Record, key: string): (r: Result<string, string>)
    ensures r.Success? <==> key in d
    ensures r.Success? ==> r.value == d[key]
    ensures r.Failure? ==> r.error == key
  {
    if key in d then Success(d[key]) else Failure(key)
  }

  /** `Tarea.from_dict(data)`: the required keys are read in declaration
      order, so the error names the first one missing; `prompt_generado`
      falls back to the empty string and `created_at` to the clock. */
  function FromDict(d: Record, now: string): Result<Tarea, string> {
    var id :- Field(d, "id");
    var usuario :- Field(d, "usuario");
    var contexto :- Field(d, "contexto");
    var area :- Field(d, "area");
    var objetivo :- Field(d, "objetivo");
    var entradas :- Field(d, "entradas");
    var restricciones :- Field(d, "restricciones");
    var formatoSalida :- Field(d, "formato_salida");
    var prioridad :- Field(d, "prioridad");
    Success(Tarea(id, usuario, contexto, area, objetivo, entradas, restricciones, formatoSalida, prioridad,
                  if "prompt_generado" in d then d["prompt_generado"] else "",
                  if "created_at" in d then d["created_at"] else now))
  }

  /** Reading succeeds exactly when every required key is present, and
      otherwise names a required key that is missing. */
  lemma FromDictSucceeds(d: Record, now: string)
    ensures FromDict(d, now).Success? <==> forall k :: k in RequiredKeys ==> k in d
    ensures FromDict(d, now).Failure? ==> FromDict(d, now).error in RequiredKeys && FromDict(d, now).error !in d
  {
  }

  /** Reading back what `to_dict` wrote gives the same task, whatever the clock says. */
  lemma FromToDict(t: Tarea, now: string)
    ensures FromDict(ToDict(t), now) == Success(t)
  {
  }

  /** Writing out what `from_dict` read gives back the dictionary, when it
      held exactly the stored keys. */
  lemma ToFromDict(d: Record, now: string)
    requires d.Keys == AllKeys
    ensures FromDict(d, now).Success?
    ensures ToDict(FromDict(d, now).value) == d
  {
    var t := Tarea(d["id"], d["usuario"], d["contexto"], d["area"], d["objetivo"], d["entradas"],
                   d["restricciones"], d["formato_salida"], d["prioridad"], d["prompt_generado"], d["created_at"]);
    assert FromDict(d, now) == Success(t);
    var e := ToDict(t);
    assert e.Keys == d.Keys;
    assert forall k :: k in d ==> e[k] == d[k];
  }

  /** The error is the first required key missing, in reading order. */
  lemma FromDictFirstMissing(d: Record, now: string, i: nat)
    requires i < |RequiredKeys| && RequiredKeys[i] !in d
    requires forall j :: 0 <= j < i ==> RequiredKeys[j] in d
    ensures FromDict(d, now) == Failure(RequiredKeys[i])
  {
    var keys := RequiredKeys;
    assert keys[0] == "id" && keys[1] == "usuario" && keys[2] == "contexto" && keys[3] == "area";
    assert keys[4] == "objetivo" && keys[5] == "entradas" && keys[6] == "restricciones";
    assert keys[7] == "formato_salida" && keys[8] == "prioridad";
    if i > 0 { assert keys[0] in d; }
    if i > 1 { assert keys[1] in d; }
    if i > 2 { assert keys[2] in d; }
    if i > 3 { assert keys[3] in d; }
    if i > 4 { assert keys[4] in d; }
    if i > 5 { assert keys[5] in d; }
    if i > 6 { assert keys[6] in d; }
    if i > 7 { assert keys[7] in d; }
  }

  /** Each field is read from its own key. */
  lemma FromDictFields(d: Record, now: string)
    requires FromDict(d, now).Success?
    ensures var t := FromDict(d, now).value;
      && t.id == d["id"] && t.usuario == d["usuario"] && t.contexto == d["contexto"] && t.area == d["area"]
      && t.objetivo == d["objetivo"] && t.entradas == d["entradas"] && t.restricciones == d["restricciones"]
      && t.formatoSalida == d["formato_salida"] && t.prioridad == d["prioridad"]
  {
  }

  /** A record without the two optional keys reads as a freshly constructed
      task: the dictionary defaults agree with the constructor's. */
  lemma FromDictDefaults(d: Record, now: string)
    requires FromDict(d, now).Success?
    requires "prompt_generado" !in d && "created_at" !in d
    ensures FromDict(d, now).value
         == NewTarea(d["id"], d["usuario"], d["contexto"], d["area"], d["objetivo"], d["entradas"],
                     d["restricciones"], d["formato_salida"], d["prioridad"], now)
  {
  }

  /** A stored timestamp wins: the clock only matters when `created_at` is absent. */
  lemma ClockOnlyWhenAbsent(d: Record, now: string, later: string)
    requires FromDict(d, now).Success?
    ensures FromDict(d, later).Success?
    ensures FromDict(d, now) == FromDict(d, later) <==> "created_at" in d || now == later
    ensures FromDict(d, now).value.createdAt == if "created_at" in d then d["created_at"] else now
  {
  }
}
