/** The PROM-9 base template: a title line, seven lines that embed the nine
    payload values, two fixed closing lines, and an optional tenth line
    listing the profile's agricultural specialisations. Every area template
    renders this base and appends its own labelled extension. */
module Prom9Base {
  import opened Results
  import opened PyText
  import opened PyDict

  const SpecializationKey: string := "especializacion_agricola"

  /** The keys the base reads with `payload[key]`, in the order it reads them. */
  const RequiredKeys: seq<string> := [
    "perfil_nombre", "perfil_rol", "contexto_nombre", "contexto_rol",
    "objetivo", "entradas", "restricciones", "formato_salida", "prioridad"
  ]

  const Title: string := "PROM-9™ | Base"
  const QualityLine: string := "8) Criterios de calidad: Claridad, precisión y accionabilidad."
  const FinalLine: string := "9) Instrucción final: Entrega una respuesta profesional y estructurada en español."
  const SpecializationLead: string := "10) Este perfil está especializado en los siguientes cultivos agrícolas: "

  predicate HasRequiredKeys(p: Dict) {
    forall k :: k in RequiredKeys ==> k in p
  }

  /** `payload.get("especializacion_agricola", [])`. */
  function Specialization(p: Dict): Value {
    Get(p, SpecializationKey, Items([]))
  }

  // ---------------------------------------------------------------------
  // Line 10
  // ---------------------------------------------------------------------

  /** The items line 10 lists: a string is split on commas only, each piece
      stripped and blank pieces dropped; a list is taken as it is. */
  function SpecializationItems(v: Value): seq<string> {
    match v
    case Str(s) => StrippedNonBlank(Split(s, ','))
    case Items(xs) => xs
  }

  /** Line 10 without its newline, or nothing when the value is falsy. */
  function SpecializationLines(p: Dict): (lines: seq<string>)
    ensures |lines| <= 1
    ensures |lines| == 1 <==> Truthy(Specialization(p))
    ensures |lines| == 1 ==> StartsWith(lines[0], SpecializationLead)
  {
    var v := Specialization(p);
    if !Truthy(v) then []
    else [SpecializationLead + Join(", ", SpecializationItems(v)) + "."]
  }

  /** `_formatear_especializacion_agricola`. */
  function FormatearEspecializacionAgricola(p: Dict): (line: string)
    ensures line == "" <==> !Truthy(Specialization(p))
    ensures line != "" ==> StartsWith(line, SpecializationLead) && EndsWith(line, ".\n")
  {
    var lines := SpecializationLines(p);
    if |lines| == 0 then
      ""
    else
      var l := lines[0];
      assert Unlines(lines) == l + "\n";
      assert l == SpecializationLead + Join(", ", SpecializationItems(Specialization(p))) + ".";
      Unlines(lines)
  }

  /** Splitting on commas, stripping, and dropping blanks is the reference
      comma-separated list: newlines and other whitespace inside an item
      are kept, only commas separate. */
  lemma {:induction false} CommaItemsAreFields(s: string)
    ensures StrippedNonBlank(Split(s, ',')) == Fields(s, {','})
    decreases |s|
  {
    var i := FirstIndexOf(s, {','});
    SplitStep(s, ',');
    FieldsStep(s, {','});
    if i == |s| {
      assert s[..i] == s;
      StrippedNonBlankCons(s, []);
      assert [s] + [] == [s];
      assert StrippedNonBlank([]) == [];
    } else {
      CommaItemsAreFields(s[i + 1..]);
      StrippedNonBlankCons(s[..i], Split(s[i + 1..], ','));
    }
  }

  /** Line 10, when written, lists the items joined by ", " and ends the
      sentence with a full stop and a newline. */
  lemma SpecializationLine(p: Dict)
    requires Truthy(Specialization(p))
    ensures FormatearEspecializacionAgricola(p)
         == SpecializationLead + Join(", ", SpecializationItems(Specialization(p))) + ".\n"
  {
    var x := SpecializationLead + Join(", ", SpecializationItems(Specialization(p)));
    assert SpecializationLines(p) == [x + "."];
    assert Unlines([x + "."]) == x + "." + "\n" + "";
    assert x + "." + "\n" + "" == x + ".\n";
  }

  /** A string value without commas is one item: the whole stripped text,
      line breaks included. */
  lemma SpecializationWithoutCommas(p: Dict, s: string)
    requires SpecializationKey in p && p[SpecializationKey] == Str(s)
    requires ',' !in s && !IsBlank(s)
    ensures FormatearEspecializacionAgricola(p) == SpecializationLead + Strip(s) + ".\n"
  {
    CommaItemsAreFields(s);
    FieldsWithoutSeparator(s, {','});
    SpecializationLine(p);
  }

  /** A non-empty string of only commas and spaces is truthy, so line 10 is
      still written, with an empty list of items. */
  lemma {:induction false} CommasAndSpacesGiveEmptyList(s: string)
    requires forall i :: 0 <= i < |s| ==> s[i] == ',' || s[i] == ' '
    ensures Fields(s, {','}) == []
    decreases |s|
  {
    var i := FirstIndexOf(s, {','});
    assert IsBlank(s[..i]);
    if i < |s| {
      CommasAndSpacesGiveEmptyList(s[i + 1..]);
    }
  }

  lemma EmptyItemLine(p: Dict, s: string)
    requires SpecializationKey in p && p[SpecializationKey] == Str(s)
    requires s != "" && forall i :: 0 <= i < |s| ==> s[i] == ',' || s[i] == ' '
    ensures FormatearEspecializacionAgricola(p) == SpecializationLead + ".\n"
  {
    CommaItemsAreFields(s);
    CommasAndSpacesGiveEmptyList(s);
    SpecializationLine(p);
    assert SpecializationLead + Join(", ", []) == SpecializationLead;
  }

  // ---------------------------------------------------------------------
  // The base render
  // ---------------------------------------------------------------------

  /** Lines 0 to 9 of the base, without their newlines. */
  function BaseLines(p: Dict): (lines: seq<string>)
    requires HasRequiredKeys(p)
    ensures |lines| == 10
  {
    [ Title,
      "1) Perfil: " + Display(p["perfil_nombre"]) + " (" + Display(p["perfil_rol"]) + ")",
      "2) Contexto: " + Display(p["contexto_nombre"]) + " - Rol contextual: " + Display(p["contexto_rol"]),
      "3) Objetivo: " + Display(p["objetivo"]),
      "4) Entradas clave: " + Display(p["entradas"]),
      "5) Restricciones: " + Display(p["restricciones"]),
      "6) Formato de salida: " + Display(p["formato_salida"]),
      "7) Prioridad: " + Display(p["prioridad"]),
      QualityLine,
      FinalLine ]
  }

  /** `render_base`. A payload missing one of the nine keys fails with a
      KeyError naming the first missing key in reading order. */
  function RenderBase(p: Dict): (r: Result<string, string>)
    ensures r.Success? <==> HasRequiredKeys(p)
    ensures r.Failure? ==> exists i :: 0 <= i < |RequiredKeys| && RequiredKeys[i] == r.error
                                  && r.error !in p && forall j :: 0 <= j < i ==> RequiredKeys[j] in p
    ensures r.Success? ==> StartsWith(r.value, Title + "\n")
    ensures r.Success? ==> EndsWith(r.value, QualityLine + "\n" + FinalLine + "\n" + FormatearEspecializacionAgricola(p))
    ensures r.Success? ==> EndsWith(r.value, "\n")
  {
    match FirstAbsent(RequiredKeys, p.Keys)
    case Some(k) => Failure(k)
    case None =>
      UnlinesEnds(BaseLines(p), FormatearEspecializacionAgricola(p));
      Success(BaseText(p))
  }

  /** The text of a successful render: lines 0 to 9, each ended by a
      newline, then line 10 when there is one. */
  function BaseText(p: Dict): string
    requires HasRequiredKeys(p)
  {
    Unlines(BaseLines(p)) + FormatearEspecializacionAgricola(p)
  }

  /** The text of a successful render, fragment by fragment, for every
      payload -- values holding line breaks included: the title, each
      label followed by its values verbatim and in reading order, the two
      fixed lines, each with its newline, then line 10 or nothing. */
  lemma RenderBaseText(p: Dict)
    requires "perfil_nombre" in p && "perfil_rol" in p && "contexto_nombre" in p && "contexto_rol" in p
    requires "objetivo" in p && "entradas" in p && "restricciones" in p && "formato_salida" in p && "prioridad" in p
    ensures RenderBase(p) == Success(BaseText(p))
    ensures BaseText(p) ==
      Title + "\n" + (
      "1) Perfil: " + Display(p["perfil_nombre"]) + " (" + Display(p["perfil_rol"]) + ")" + "\n" + (
      "2) Contexto: " + Display(p["contexto_nombre"]) + " - Rol contextual: " + Display(p["contexto_rol"]) + "\n" + (
      "3) Objetivo: " + Display(p["objetivo"]) + "\n" + (
      "4) Entradas clave: " + Display(p["entradas"]) + "\n" + (
      "5) Restricciones: " + Display(p["restricciones"]) + "\n" + (
      "6) Formato de salida: " + Display(p["formato_salida"]) + "\n" + (
      "7) Prioridad: " + Display(p["prioridad"]) + "\n" + (
      QualityLine + "\n" + (
      FinalLine + "\n" + FormatearEspecializacionAgricola(p))))))))))
  {
    UnlinesTen(BaseLines(p), FormatearEspecializacionAgricola(p));
  }

  /** The base reads nothing but its nine keys and the specialisation:
      any other key of the payload leaves it unchanged. */
  lemma BaseFrame(p: Dict, q: Dict)
    requires forall k :: k in RequiredKeys ==> (k in p <==> k in q) && (k in p ==> p[k] == q[k])
    requires Specialization(p) == Specialization(q)
    ensures RenderBase(p) == RenderBase(q)
  {
    FirstAbsentAgrees(RequiredKeys, p.Keys, q.Keys);
    if HasRequiredKeys(p) {
      assert HasRequiredKeys(q);
      BaseLinesFrame(p, q);
      SpecializationFrame(p, q);
    }
  }

  lemma BaseLinesFrame(p: Dict, q: Dict)
    requires HasRequiredKeys(p) && HasRequiredKeys(q)
    requires forall k :: k in RequiredKeys ==> p[k] == q[k]
    ensures BaseLines(p) == BaseLines(q)
  {
    var ks := RequiredKeys;
    assert ks[0] in ks && ks[1] in ks && ks[2] in ks && ks[3] in ks && ks[4] in ks;
    assert ks[5] in ks && ks[6] in ks && ks[7] in ks && ks[8] in ks;
  }

  lemma SpecializationFrame(p: Dict, q: Dict)
    requires Specialization(p) == Specialization(q)
    ensures FormatearEspecializacionAgricola(p) == FormatearEspecializacionAgricola(q)
  {
  }

  /** Whatever follows the title line, the text is not blank. */
  lemma TitledNotBlank(s: string)
    requires StartsWith(s, Title + "\n")
    ensures !IsBlank(s)
  {
    var t := Title + "\n";
    assert t[0] == 'P';
    OpensNotBlank(s, t);
  }

  // ---------------------------------------------------------------------
  // Line view
  // ---------------------------------------------------------------------

  /** Read line by line, a successful render is the title, lines `1)` to
      `7)` each holding its label and the payload values verbatim and in
      order, the fixed lines `8)` and `9)`, and line `10)` exactly when the
      specialisation is truthy -- provided no line contains a line break,
      which holds when no payload value does. */
  lemma RenderBaseLines(p: Dict)
    requires HasRequiredKeys(p)
    requires AllSingleLine(BaseLines(p) + SpecializationLines(p))
    ensures SplitLines(RenderBase(p).value) == BaseLines(p) + SpecializationLines(p)
    ensures |SplitLines(RenderBase(p).value)| == 10 + (if Truthy(Specialization(p)) then 1 else 0)
  {
    var lines := BaseLines(p) + SpecializationLines(p);
    UnlinesAppend(BaseLines(p), SpecializationLines(p));
    SplitLinesUnlines(lines, "");
    assert Unlines(lines) + "" == Unlines(lines);
    FormatearIsUnlines(p);
  }

  // ---------------------------------------------------------------------
  // Extensions
  // ---------------------------------------------------------------------

  /** What every area template does: render the base, then append a
      newline and the extension's lines, each newline-terminated. A base
      failure propagates unchanged. */
  function Extend(p: Dict, extension: seq<string>): (r: Result<string, string>)
    ensures r.Success? <==> RenderBase(p).Success?
    ensures r.Failure? ==> r.error == RenderBase(p).error
    ensures r.Success? ==> StartsWith(r.value, RenderBase(p).value)
    ensures r.Success? && |extension| > 0 ==> StartsWith(r.value[|RenderBase(p).value|..], "\n" + extension[0] + "\n")
  {
    match RenderBase(p)
    case Failure(k) => Failure(k)
    case Success(base) =>
      ExtendPieces(base, extension);
      Success(base + ("\n" + Unlines(extension)))
  }

  /** The base opens the extended text, and what follows it opens with the
      first extension line. */
  lemma ExtendPieces(base: string, extension: seq<string>)
    ensures StartsWith(base + ("\n" + Unlines(extension)), base)
    ensures (base + ("\n" + Unlines(extension)))[|base|..] == "\n" + Unlines(extension)
    ensures |extension| > 0 ==> StartsWith("\n" + Unlines(extension), "\n" + extension[0] + "\n")
  {
    var extra := "\n" + Unlines(extension);
    assert (base + extra)[..|base|] == base;
    assert (base + extra)[|base|..] == extra;
    if |extension| > 0 {
      var first := "\n" + extension[0] + "\n";
      var rest := Unlines(extension[1..]);
      assert Unlines(extension) == (extension[0] + "\n") + rest;
      AppendAssoc("\n", extension[0] + "\n", rest);
      AppendAssoc("\n", extension[0], "\n");
      assert extra == first + rest;
      assert (first + rest)[..|first|] == first;
    }
  }

  /** The blank line between the base and the extension is the only line
      the extension adds besides its own. */
  lemma ExtendLines(p: Dict, extension: seq<string>)
    requires HasRequiredKeys(p)
    requires AllSingleLine(BaseLines(p) + SpecializationLines(p) + extension)
    ensures SplitLines(Extend(p, extension).value)
         == BaseLines(p) + SpecializationLines(p) + [""] + extension
  {
    var head := BaseLines(p) + SpecializationLines(p);
    assert RenderBase(p).value == Unlines(head) by {
      UnlinesAppend(BaseLines(p), SpecializationLines(p));
      FormatearIsUnlines(p);
    }
    LinesAfterBlank(head, extension);
  }

  /** Lines, a newline, then more lines read back as the lines, one empty
      line, and the others. */
  lemma LinesAfterBlank(head: seq<string>, extension: seq<string>)
    requires AllSingleLine(head + extension)
    ensures SplitLines(Unlines(head) + ("\n" + Unlines(extension))) == head + [""] + extension
  {
    var tail := [""] + extension;
    assert AllSingleLine(head + tail) by {
      AllSingleLineAppend(head, extension);
      AllSingleLineAppend([""], extension);
      AllSingleLineAppend(head, tail);
    }
    assert Unlines(tail) == "\n" + Unlines(extension) by {
      assert tail[1..] == extension;
    }
    UnlinesAppend(head, tail);
    SplitLinesUnlines(head + tail, "");
    assert Unlines(head + tail) + "" == Unlines(head + tail);
    AppendAssoc(head, [""], extension);
  }

  /** Line 10 is the newline-terminated list of specialisation lines. */
  lemma FormatearIsUnlines(p: Dict)
    ensures FormatearEspecializacionAgricola(p) == Unlines(SpecializationLines(p))
  {
  }

  /** An extension line `label + value-or-default` shows the default exactly
      when the key is absent, or present and holding the default itself: a
      present empty value is kept, never replaced. */
  lemma DefaultLine(p: Dict, key: string, caption: string, fallback: string)
    requires fallback == "" || fallback[0] != '['
    ensures caption + Display(Get(p, key, Str(fallback))) == caption + fallback
        <==> key !in p || p[key] == Str(fallback)
  {
    if key in p && caption + Display(p[key]) == caption + fallback {
      assert (caption + Display(p[key]))[|caption|..] == Display(p[key]);
      assert (caption + fallback)[|caption|..] == fallback;
      DisplayOfStr(p[key], fallback);
    }
  }

  /** The value ventas and gestión list in their agricultural line:
      `", ".join(str(item) for item in especializaciones)`, so a string is
      listed character by character. */
  function IteratedCrops(p: Dict): string {
    Join(", ", Iterated(Specialization(p)))
  }
}
