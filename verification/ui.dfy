/** The pure steps of the desktop interface: splitting list fields, the
    key/value record dialog, collecting and validating the task form,
    adding attachments, choosing the template and renaming a profile or
    context. Every widget read is an input here: a map from field name to
    the text the widget holds, or the sequence of rows a dialog shows. */
module UiForms {
  import opened Results
  import opened PyText
  import PyDict
  import Attachments

  // ---------------------------------------------------------------------
  // List fields
  // ---------------------------------------------------------------------

  /** `_split_lines`: commas become newlines, then the stripped non-blank lines. */
  function SplitItems(raw: string): seq<string> {
    StrippedNonBlank(SplitLines(ReplaceChar(raw, ',', "\n")))
  }

  /** A list field holds the stripped, non-blank pieces between commas and
      line breaks, in order. */
  lemma SplitItemsAreFields(raw: string)
    ensures SplitItems(raw) == Fields(raw, LineBreaks + {','})
  {
    ReplaceFields(raw, ',', '\n', LineBreaks);
    StrippedLinesAreFields(ReplaceChar(raw, ',', "\n"));
  }

  lemma FirstIndexOfExact(s: string, seps: set<char>, i: nat)
    requires i <= |s|
    requires forall j :: 0 <= j < i ==> s[j] !in seps
    requires i < |s| ==> s[i] in seps
    ensures FirstIndexOf(s, seps) == i
  {
  }

  /** Turning one separator into another leaves the fields unchanged. */
  lemma {:induction false} ReplaceFields(s: string, c: char, d: char, seps: set<char>)
    requires d in seps && c !in seps
    ensures Fields(s, seps + {c}) == Fields(ReplaceChar(s, c, [d]), seps)
    decreases |s|
  {
    var all := seps + {c};
    var r := ReplaceChar(s, c, [d]);
    ReplaceCharPointwise(s, c, d);
    var i := FirstIndexOf(s, all);
    FirstIndexOfExact(r, seps, i);
    assert r[..i] == s[..i];
    if i < |s| {
      ReplaceCharAppend(s[..i + 1], s[i + 1..], c, [d]);
      assert s == s[..i + 1] + s[i + 1..];
      ReplaceCharPointwise(s[..i + 1], c, d);
      assert r[i + 1..] == ReplaceChar(s[i + 1..], c, [d]);
      ReplaceFields(s[i + 1..], c, d, seps);
    }
  }

  /** A separator in front adds only an empty piece. */
  lemma FieldsAfterSeparator(t: string, seps: set<char>)
    requires |t| > 0 && t[0] in seps
    ensures Fields(t, seps) == Fields(t[1..], seps)
  {
    FieldsStep(t, seps);
    assert FirstIndexOf(t, seps) == 0;
    assert t[..0] == "";
  }

  lemma SplitLinesStep(s: string, i: nat, skip: nat)
    requires |s| > 0 && i == FirstIndexOf(s, LineBreaks) && i < |s|
    requires skip == if s[i] == '\r' && i + 1 < |s| && s[i + 1] == '\n' then 2 else 1
    ensures SplitLines(s) == [s[..i]] + SplitLines(s[i + skip..])
  {
  }

  /** `[l.strip() for l in s.splitlines() if l.strip()]` are the fields
      between line boundaries: a "\r\n" pair only adds an empty piece,
      which is dropped anyway. */
  lemma {:induction false} StrippedLinesAreFields(s: string)
    ensures StrippedNonBlank(SplitLines(s)) == Fields(s, LineBreaks)
    decreases |s|
  {
    var i := FirstIndexOf(s, LineBreaks);
    FieldsStep(s, LineBreaks);
    if |s| == 0 {
      assert s[..i] == "";
      assert StrippedNonBlank([]) == [];
    } else if i == |s| {
      assert s[..i] == s;
      assert SplitLines(s) == [s];
      StrippedNonBlankCons(s, []);
      assert [s] + [] == [s];
      assert StrippedNonBlank([]) == [];
    } else {
      var skip := if s[i] == '\r' && i + 1 < |s| && s[i + 1] == '\n' then 2 else 1;
      var rest := s[i + skip..];
      SplitLinesStep(s, i, skip);
      StrippedLinesAreFields(rest);
      StrippedNonBlankCons(s[..i], SplitLines(rest));
      if skip == 2 {
        var t := s[i + 1..];
        assert t[0] == '\n' && t[1..] == rest;
        FieldsAfterSeparator(t, LineBreaks);
      }
    }
  }

  // ---------------------------------------------------------------------
  // The key/value record dialog
  // ---------------------------------------------------------------------

  /** The dictionary `_save` builds from the rows in order: keys and values
      stripped, rows with a blank key skipped, a later row overwriting an
      earlier one with the same key. */
  function Collected(rows: seq<(string, string)>): map<string, string> {
    if |rows| == 0 then map[]
    else
      var before := Collected(rows[..|rows| - 1]);
      var key := Strip(rows[|rows| - 1].0);
      if key != "" then before[key := Strip(rows[|rows| - 1].1)] else before
  }

  /** Every row with a non-blank key leaves that key in the record. */
  lemma {:induction false} CollectedHasRowKey(rows: seq<(string, string)>, i: nat)
    requires i < |rows| && Strip(rows[i].0) != ""
    ensures Strip(rows[i].0) in Collected(rows)
    decreases |rows|
  {
    if i < |rows| - 1 {
      var init := rows[..|rows| - 1];
      assert init[i] == rows[i];
      CollectedHasRowKey(init, i);
    }
  }

  /** Every key of the record is the non-blank stripped key of some row. */
  lemma {:induction false} CollectedKeyFromRow(rows: seq<(string, string)>, k: string)
    requires k in Collected(rows)
    ensures k != ""
    ensures exists i :: 0 <= i < |rows| && Strip(rows[i].0) == k
    decreases |rows|
  {
    var init := rows[..|rows| - 1];
    if k in Collected(init) {
      CollectedKeyFromRow(init, k);
      var i :| 0 <= i < |init| && Strip(init[i].0) == k;
      assert rows[i] == init[i];
    } else {
      assert Strip(rows[|rows| - 1].0) == k;
    }
  }

  /** The value kept for a key is the stripped value of the last row with that key. */
  lemma {:induction false} CollectedLastWins(rows: seq<(string, string)>, i: nat)
    requires i < |rows| && Strip(rows[i].0) != ""
    requires forall j :: i < j < |rows| ==> Strip(rows[j].0) != Strip(rows[i].0)
    ensures Strip(rows[i].0) in Collected(rows)
    ensures Collected(rows)[Strip(rows[i].0)] == Strip(rows[i].1)
    decreases |rows|
  {
    var init := rows[..|rows| - 1];
    var last := rows[|rows| - 1];
    CollectedLast(rows);
    if i < |rows| - 1 {
      assert Strip(last.0) != Strip(rows[i].0);
      assert Strip(init[i].0) in Collected(init) && Collected(init)[Strip(init[i].0)] == Strip(init[i].1) by {
        assert forall j :: i < j < |init| ==> init[j] == rows[j];
        CollectedLastWins(init, i);
      }
    }
  }

  lemma CollectedLast(rows: seq<(string, string)>)
    requires |rows| > 0
    ensures var last := rows[|rows| - 1];
      Collected(rows) == if Strip(last.0) != "" then Collected(rows[..|rows| - 1])[Strip(last.0) := Strip(last.1)]
                         else Collected(rows[..|rows| - 1])
  {
  }

  /** `JsonRecordDialog._save`: the record, or nothing when `nombre` is missing or empty. */
  method RecordDialogSave(rows: seq<(string, string)>) returns (result: Option<map<string, string>>)
    ensures result.Some? <==> "nombre" in Collected(rows) && Collected(rows)["nombre"] != ""
    ensures result.Some? ==> result.value == Collected(rows)
  {
    var payload: map<string, string> := map[];
    var i := 0;
    while i < |rows|
      invariant 0 <= i <= |rows|
      invariant payload == Collected(rows[..i])
    {
      assert rows[..i + 1][..i] == rows[..i];
      var key := Strip(rows[i].0);
      if key != "" {
        payload := payload[key := Strip(rows[i].1)];
      }
      i := i + 1;
    }
    assert rows[..|rows|] == rows;
    if "nombre" !in payload || payload["nombre"] == "" {
      return None;
    }
    return Some(payload);
  }

  // ---------------------------------------------------------------------
  // The task form
  // ---------------------------------------------------------------------

  const ContextLead: string := "\nContexto adicional: "

  const FixedOutputFormat: string := "Respuesta estructurada"

  /** `d.get(key, "")` on a dictionary of strings. */
  function GetStr(d: map<string, string>, key: string, fallback: string): string {
    if key in d then d[key] else fallback
  }

  /** The widget pass of `_collect_form_data`: the selected template under
      `area`, then every base field, then every template field, each
      assignment overwriting an earlier one with the same name. */
  function WidgetPass(area: string, base: map<string, string>, template: map<string, string>): map<string, string> {
    map["area" := area] + base + template
  }

  /** `_collect_form_data`: the widget pass, the three derived fields, and
      the detailed context folded into the restrictions. */
  function CollectFormData(area: string, base: map<string, string>, template: map<string, string>): map<string, string> {
    WithContext(Derived(WidgetPass(area, base, template)))
  }

  /** `entradas` from the situation, `prioridad` from the urgency or
      `Media`, and the fixed output format. */
  function Derived(p: map<string, string>): map<string, string> {
    var p1 := p["entradas" := GetStr(p, "situacion", "")];
    var urgencia := GetStr(p1, "urgencia", "");
    var p2 := p1["prioridad" := if urgencia != "" then urgencia else "Media"];
    p2["formato_salida" := FixedOutputFormat]
  }

  /** A non-empty detailed context is appended to the restrictions, and the
      result stripped. */
  function WithContext(q: map<string, string>): map<string, string> {
    var ctx := GetStr(q, "contexto_detallado", "");
    if ctx != "" then q["restricciones" := Strip(GetStr(q, "restricciones", "") + ContextLead + ctx)] else q
  }

  lemma FormKeysDistinct()
    ensures "entradas" != "urgencia" && "prioridad" != "situacion"
  {
    assert "entradas"[0] == 'e' && "urgencia"[0] == 'u';
    assert "prioridad"[0] == 'p' && "situacion"[0] == 's';
  }

  /** The three derived fields: `entradas` copies the situation, `prioridad`
      is the urgency or `Media` and is never empty, and the output format is fixed. */
  lemma DerivedFields(p: map<string, string>)
    ensures "entradas" in Derived(p) && Derived(p)["entradas"] == GetStr(p, "situacion", "")
    ensures "prioridad" in Derived(p) && Derived(p)["prioridad"] != ""
    ensures GetStr(p, "urgencia", "") != "" ==> Derived(p)["prioridad"] == GetStr(p, "urgencia", "")
    ensures "formato_salida" in Derived(p) && Derived(p)["formato_salida"] == FixedOutputFormat
  {
    FormKeysDistinct();
  }

  /** Deriving touches no other field. */
  lemma DerivedKeeps(p: map<string, string>, k: string)
    requires k != "entradas" && k != "prioridad" && k != "formato_salida"
    ensures (k in Derived(p) <==> k in p) && (k in p ==> Derived(p)[k] == p[k])
  {
  }

  /** The restrictions gain the detailed context exactly when one is given;
      nothing else changes. */
  lemma WithContextFields(q: map<string, string>, k: string)
    ensures var ctx := GetStr(q, "contexto_detallado", "");
            ctx != "" ==>
              "restricciones" in WithContext(q)
              && WithContext(q)["restricciones"] == Strip(GetStr(q, "restricciones", "") + ContextLead + ctx)
    ensures var ctx := GetStr(q, "contexto_detallado", "");
            k != "restricciones" || ctx == "" ==>
              (k in WithContext(q) <==> k in q) && (k in q ==> WithContext(q)[k] == q[k])
  {
  }

  /** Every field other than the three derived ones keeps the value its
      widget held, the restrictions too unless a detailed context is given. */
  lemma CollectFormDataKeeps(area: string, base: map<string, string>, template: map<string, string>, k: string)
    requires k != "entradas" && k != "prioridad" && k != "formato_salida"
    requires k == "restricciones" ==> GetStr(WidgetPass(area, base, template), "contexto_detallado", "") == ""
    ensures var p := WidgetPass(area, base, template);
            var data := CollectFormData(area, base, template);
            (k in data <==> k in p) && (k in data ==> data[k] == p[k])
  {
    var p := WidgetPass(area, base, template);
    DerivedKeeps(p, k);
    DerivedKeeps(p, "contexto_detallado");
    WithContextFields(Derived(p), k);
  }

  /** The context is read from the widgets, and the restrictions it extends too. */
  lemma CollectFormDataContext(area: string, base: map<string, string>, template: map<string, string>)
    requires GetStr(WidgetPass(area, base, template), "contexto_detallado", "") != ""
    ensures var p := WidgetPass(area, base, template);
            var data := CollectFormData(area, base, template);
            "restricciones" in data
            && data["restricciones"] == Strip(GetStr(p, "restricciones", "") + ContextLead + GetStr(p, "contexto_detallado", ""))
  {
    var p := WidgetPass(area, base, template);
    DerivedKeeps(p, "contexto_detallado");
    DerivedKeeps(p, "restricciones");
    WithContextFields(Derived(p), "restricciones");
  }

  /** A detailed context ending in a non-space character always closes the
      restrictions, after its lead, whatever the restrictions held. */
  lemma ContextClosesRestrictions(restricciones: string, ctx: string)
    requires ctx != "" && !IsSpace(ctx[|ctx| - 1])
    ensures EndsWith(Strip(restricciones + ContextLead + ctx), "Contexto adicional: " + ctx)
  {
    var tail := "Contexto adicional: " + ctx;
    assert restricciones + ContextLead + ctx == (restricciones + "\n") + tail;
    StripKeepsSolidTail(restricciones + "\n", tail);
  }

  /** Stripping never reaches into a tail that starts and ends with a non-space. */
  lemma StripKeepsSolidTail(head: string, tail: string)
    requires |tail| > 0 && !IsSpace(tail[0]) && !IsSpace(tail[|tail| - 1])
    ensures EndsWith(Strip(head + tail), tail)
  {
    var s := head + tail;
    var l := TrimLeft(s);
    assert s[|head|] == tail[0];
    assert |s| - |l| <= |head|;
    assert l == s[|s| - |l|..];
    assert l[|l| - |tail|..] == tail;
    var r := TrimRight(l);
    assert l[|l| - 1] == tail[|tail| - 1];
    assert r == l;
  }

  /** The selector's value names the area unless a widget is itself called `area`. */
  lemma AreaFromSelector(area: string, base: map<string, string>, template: map<string, string>)
    requires "area" !in base && "area" !in template
    ensures "area" in CollectFormData(area, base, template)
    ensures CollectFormData(area, base, template)["area"] == area
  {
    CollectFormDataKeeps(area, base, template, "area");
    assert WidgetPass(area, base, template)["area"] == area;
  }

  const RequiredFields: seq<string> := ["titulo", "objetivo", "situacion", "urgencia"]

  /** `[name for name in names if not values[name]]`. */
  function MissingFields(names: seq<string>, values: map<string, string>): (r: seq<string>)
    requires forall n :: n in names ==> n in values
    ensures forall n :: n in r <==> n in names && values[n] == ""
  {
    if |names| == 0 then []
    else
      var rest := MissingFields(names[1..], values);
      assert forall n :: n in names <==> n == names[0] || n in names[1..];
      (if values[names[0]] == "" then [names[0]] else []) + rest
  }

  /** `_validate_required`: no warning exactly when the four required
      fields are all filled in; otherwise the warning lists the empty ones. */
  function ValidateRequired(values: map<string, string>): (warning: Option<string>)
    requires forall n :: n in RequiredFields ==> n in values
    ensures warning.None? <==> forall n :: n in RequiredFields ==> values[n] != ""
    ensures warning.Some? ==> StartsWith(warning.value, "Completa los campos obligatorios: ")
  {
    var missing := MissingFields(RequiredFields, values);
    if |missing| == 0 then None
    else
      assert missing[0] in missing;
      var w := "Completa los campos obligatorios: " + Join(", ", missing);
      assert w[..|"Completa los campos obligatorios: "|] == "Completa los campos obligatorios: ";
      Some(w)
  }

  // ---------------------------------------------------------------------
  // Attachments
  // ---------------------------------------------------------------------

  /** `f"Tipo no soportado: {path.name}"` for each chosen path of an unsupported type. */
  function Rejections(chosen: seq<string>, supported: string -> bool): (r: seq<string>)
    ensures |r| <= |chosen|
  {
    if |chosen| == 0 then []
    else
      var p := chosen[|chosen| - 1];
      Rejections(chosen[..|chosen| - 1], supported)
        + (if supported(p) then [] else [RejectionMessage(p)])
  }

  function RejectionMessage(path: string): string {
    "Tipo no soportado: " + Attachments.BaseName(path)
  }

  /** Reference definition of the paths `attach_files` adds: those passing
      the type check `supported`, in the order chosen, each only if not
      seen before. */
  function Accepted(chosen: seq<string>, seen: seq<string>, supported: string -> bool): seq<string> {
    if |chosen| == 0 then []
    else if supported(chosen[0]) && chosen[0] !in seen then
      [chosen[0]] + Accepted(chosen[1..], seen + [chosen[0]], supported)
    else
      Accepted(chosen[1..], seen, supported)
  }

  /** Accepting one more path looks at everything accepted so far. */
  lemma {:induction false} AcceptedSnoc(chosen: seq<string>, p: string, seen: seq<string>, supported: string -> bool)
    ensures Accepted(chosen + [p], seen, supported)
         == Accepted(chosen, seen, supported)
            + (if supported(p) && p !in seen + Accepted(chosen, seen, supported) then [p] else [])
    decreases |chosen|
  {
    if |chosen| == 0 {
      assert chosen + [p] == [p];
      assert [p][1..] == [];
    } else {
      assert (chosen + [p])[0] == chosen[0];
      assert (chosen + [p])[1..] == chosen[1..] + [p];
      var c := chosen[0];
      if supported(c) && c !in seen {
        AcceptedSnoc(chosen[1..], p, seen + [c], supported);
        assert seen + [c] + Accepted(chosen[1..], seen + [c], supported) == seen + Accepted(chosen, seen, supported);
      } else {
        AcceptedSnoc(chosen[1..], p, seen, supported);
      }
    }
  }

  /** Every accepted path passed the check, was chosen, had not been seen,
      and is not accepted twice. */
  lemma {:induction false} AcceptedFresh(chosen: seq<string>, seen: seq<string>, supported: string -> bool)
    ensures forall k :: 0 <= k < |Accepted(chosen, seen, supported)| ==>
              var a := Accepted(chosen, seen, supported);
              supported(a[k]) && a[k] in chosen && a[k] !in seen && a[k] !in a[..k]
    decreases |chosen|
  {
    if |chosen| > 0 {
      var c := chosen[0];
      var a := Accepted(chosen, seen, supported);
      if supported(c) && c !in seen {
        var rest := Accepted(chosen[1..], seen + [c], supported);
        AcceptedFresh(chosen[1..], seen + [c], supported);
        assert a == [c] + rest;
        forall k | 0 < k < |a|
          ensures supported(a[k]) && a[k] in chosen && a[k] !in seen && a[k] !in a[..k]
        {
          assert a[k] == rest[k - 1];
          assert a[..k] == [c] + rest[..k - 1];
        }
      } else {
        AcceptedFresh(chosen[1..], seen, supported);
      }
    }
  }

  /** Every chosen path that passes the check ends up attached, already or now. */
  lemma {:induction false} AcceptedCovers(chosen: seq<string>, seen: seq<string>, supported: string -> bool)
    ensures forall j :: 0 <= j < |chosen| && supported(chosen[j]) ==>
              chosen[j] in seen || chosen[j] in Accepted(chosen, seen, supported)
    decreases |chosen|
  {
    if |chosen| > 0 {
      var c := chosen[0];
      if supported(c) && c !in seen {
        AcceptedCovers(chosen[1..], seen + [c], supported);
      } else {
        AcceptedCovers(chosen[1..], seen, supported);
      }
      assert forall j :: 1 <= j < |chosen| ==> chosen[j] == chosen[1..][j - 1];
    }
  }

  /** `attach_files`: each supported path not yet attached is appended in
      the order chosen; each unsupported one yields one error message. */
  method AttachFiles(current: seq<string>, chosen: seq<string>) returns (paths: seq<string>, errores: seq<string>)
    ensures paths == current + Accepted(chosen, current, Attachments.ValidarTipoArchivo)
    ensures errores == Rejections(chosen, Attachments.ValidarTipoArchivo)
  {
    paths, errores := AttachWith(current, chosen, Attachments.ValidarTipoArchivo);
  }

  /** One more chosen path: what it adds to the accepted paths and to the errors. */
  lemma AttachStep(chosen: seq<string>, i: nat, current: seq<string>, supported: string -> bool)
    requires i < |chosen|
    ensures Accepted(chosen[..i + 1], current, supported)
         == Accepted(chosen[..i], current, supported)
            + (if supported(chosen[i]) && chosen[i] !in current + Accepted(chosen[..i], current, supported) then [chosen[i]] else [])
    ensures Rejections(chosen[..i + 1], supported)
         == Rejections(chosen[..i], supported) + (if supported(chosen[i]) then [] else [RejectionMessage(chosen[i])])
  {
    assert chosen[..i + 1] == chosen[..i] + [chosen[i]];
    assert chosen[..i + 1][..i] == chosen[..i];
    AcceptedSnoc(chosen[..i], chosen[i], current, supported);
  }

  /** One pass of the loop of `attach_files`: the path at `i` is appended or reported. */
  method AttachOne(current: seq<string>, chosen: seq<string>, i: nat, supported: string -> bool,
                   paths: seq<string>, errores: seq<string>)
    returns (paths': seq<string>, errores': seq<string>)
    requires i < |chosen|
    requires paths == current + Accepted(chosen[..i], current, supported)
    requires errores == Rejections(chosen[..i], supported)
    ensures paths' == current + Accepted(chosen[..i + 1], current, supported)
    ensures errores' == Rejections(chosen[..i + 1], supported)
  {
    var p := chosen[i];
    AttachStep(chosen, i, current, supported);
    paths', errores' := paths, errores;
    if !supported(p) {
      errores' := errores + [RejectionMessage(p)];
    } else if p !in paths {
      AppendAssoc(current, Accepted(chosen[..i], current, supported), [p]);
      paths' := paths + [p];
    }
  }

  /** The loop of `attach_files`, for any type check. */
  method AttachWith(current: seq<string>, chosen: seq<string>, supported: string -> bool)
    returns (paths: seq<string>, errores: seq<string>)
    ensures paths == current + Accepted(chosen, current, supported)
    ensures errores == Rejections(chosen, supported)
  {
    paths := current;
    errores := [];
    var i := 0;
    while i < |chosen|
      invariant 0 <= i <= |chosen|
      invariant paths == current + Accepted(chosen[..i], current, supported)
      invariant errores == Rejections(chosen[..i], supported)
    {
      paths, errores := AttachOne(current, chosen, i, supported, paths, errores);
      i := i + 1;
    }
    assert chosen[..|chosen|] == chosen;
  }

  // ---------------------------------------------------------------------
  // Template selection
  // ---------------------------------------------------------------------

  /** A template definition: `nombre`, `fields`, `ejemplos` and the like. */
  type Template = map<string, PyDict.Value>

  /** The template used when none is configured. */
  const GestionDefault: Template :=
    map["nombre" := PyDict.Str("gestion"), "fields" := PyDict.Items([]), "ejemplos" := PyDict.Items([])]

  predicate Named(item: Template, wanted: string) {
    "nombre" in item && item["nombre"] == PyDict.Str(wanted)
  }

  /** Position of the first template with the wanted name. */
  function FirstNamed(items: seq<Template>, wanted: string): (r: Option<nat>)
    ensures r.Some? ==> r.value < |items| && Named(items[r.value], wanted)
                        && forall j :: 0 <= j < r.value ==> !Named(items[j], wanted)
    ensures r.None? ==> forall j :: 0 <= j < |items| ==> !Named(items[j], wanted)
  {
    if |items| == 0 then None
    else if Named(items[0], wanted) then Some(0)
    else
      match FirstNamed(items[1..], wanted)
      case None => None
      case Some(i) => Some(i + 1)
  }

  /** `_selected_template`: the first template with the wanted name, else
      the first template, else the fixed `gestion` default. */
  function SelectedTemplate(wanted: string, plantillas: seq<Template>): (t: Template)
    ensures (exists i :: 0 <= i < |plantillas| && Named(plantillas[i], wanted)) ==> Named(t, wanted) && t in plantillas
    ensures (forall i :: 0 <= i < |plantillas| ==> !Named(plantillas[i], wanted))
            ==> t == if |plantillas| > 0 then plantillas[0] else GestionDefault
  {
    match FirstNamed(plantillas, wanted)
    case Some(i) => plantillas[i]
    case None => if |plantillas| > 0 then plantillas[0] else GestionDefault
  }

  /** Among several templates with the wanted name, the earliest wins. */
  lemma SelectedTemplateIsFirst(wanted: string, plantillas: seq<Template>, i: nat)
    requires i < |plantillas| && Named(plantillas[i], wanted)
    requires forall j :: 0 <= j < i ==> !Named(plantillas[j], wanted)
    ensures SelectedTemplate(wanted, plantillas) == plantillas[i]
  {
  }

  // ---------------------------------------------------------------------
  // Renaming a profile or a context
  // ---------------------------------------------------------------------

  /** A stored profile or context. */
  type Entry = map<string, string>

  /** `item.get("nombre")`. */
  function NameOf(e: Entry): Option<string> {
    if "nombre" in e then Some(e["nombre"]) else None
  }

  /** `[item for item in records if item.get("nombre") != name]`. */
  function Without(records: seq<Entry>, name: string): (r: seq<Entry>)
    ensures |r| <= |records|
    ensures forall x :: x in r <==> x in records && NameOf(x) != Some(name)
  {
    if |records| == 0 then []
    else
      var rest := Without(records[1..], name);
      assert forall x :: x in records <==> x == records[0] || x in records[1..];
      (if NameOf(records[0]) != Some(name) then [records[0]] else []) + rest
  }

  /** How many records carry the name. */
  function CountNamed(records: seq<Entry>, name: string): nat {
    if |records| == 0 then 0 else (if NameOf(records[0]) == Some(name) then 1 else 0) + CountNamed(records[1..], name)
  }

  lemma {:induction false} WithoutCount(records: seq<Entry>, name: string)
    ensures |Without(records, name)| == |records| - CountNamed(records, name)
    decreases |records|
  {
    if |records| > 0 {
      WithoutCount(records[1..], name);
    }
  }

  /** The rename branch of `edit_profile` / `edit_context`. When the edited
      record's name differs from the original one, every record with the
      original name is dropped and the edited record goes last. Otherwise
      the record is updated in place by a storage helper that is not part
      of this model, shown as no result. */
  function EditRecords(records: seq<Entry>, original: Entry, updated: Entry): (r: Option<seq<Entry>>)
    ensures r.Some? <==> NameOf(updated) != Some(GetStr(original, "nombre", ""))
    ensures r.Some? ==> |r.value| > 0 && r.value[|r.value| - 1] == updated
  {
    var originalName := GetStr(original, "nombre", "");
    if NameOf(updated) != Some(originalName) then Some(Without(records, originalName) + [updated]) else None
  }

  /** After a rename no earlier record keeps the original name, every other
      record is kept, and the list shrinks by the records dropped. */
  lemma {:induction false} EditRecordsRename(records: seq<Entry>, original: Entry, updated: Entry)
    requires EditRecords(records, original, updated).Some?
    ensures var name := GetStr(original, "nombre", "");
            var r := EditRecords(records, original, updated).value;
            && (forall k :: 0 <= k < |r| - 1 ==> NameOf(r[k]) != Some(name))
            && (forall x :: x in records && NameOf(x) != Some(name) ==> x in r)
            && |r| == |records| - CountNamed(records, name) + 1
  {
    WithoutCount(records, GetStr(original, "nombre", ""));
  }
}
