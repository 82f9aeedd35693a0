/** The management/operations template, also the fallback for any area the
    engine does not recognise: the base followed by an extension with the
    operational area, the time horizon and, when the profile has an
    agricultural specialisation, a line aligning the advice with it. */
module GestionTemplate {
  import opened Results
  import opened PyText
  import opened PyDict
  import opened Prom9Base

  const Header: string := "[Extensión Gestión]"
  const AreaLabel: string := "- Área operativa: "
  const HorizonLabel: string := "- Horizonte temporal: "
  const AreaDefault: string := "No especificada"
  const HorizonDefault: string := "Corto/medio plazo"
  const AgriculturalLead: string :=
    "- Contexto de negocio agrícola: prioriza recomendaciones operativas y ejemplos alineados con la gestión de "
  const ConsiderationsLine: string := "- Consideraciones: eficiencia, coordinación interáreas y control de riesgos."
  const RequestLine: string := "- Solicitud adicional: plantea plan de acción, hitos y responsables."

  /** `_contexto_agricola_negocio` without its newline: present exactly when
      the specialisation is truthy. */
  function AgriculturalLines(p: Dict): (lines: seq<string>)
    ensures |lines| <= 1
    ensures |lines| == 1 <==> Truthy(Specialization(p))
  {
    if !Truthy(Specialization(p)) then [] else [AgriculturalLead + IteratedCrops(p) + "."]
  }

  /** The lines of the management extension; the considerations and request
      lines always close it, after the optional agricultural line. */
  function ExtensionLines(p: Dict): (lines: seq<string>)
    ensures |lines| == 5 + |AgriculturalLines(p)|
    ensures lines[0] == Header
    ensures lines[3..|lines| - 2] == AgriculturalLines(p)
    ensures lines[|lines| - 2] == ConsiderationsLine && lines[|lines| - 1] == RequestLine
  {
    [ Header,
      AreaLabel + Display(Get(p, "area_operativa", Str(AreaDefault))),
      HorizonLabel + Display(Get(p, "horizonte", Str(HorizonDefault))) ]
    + AgriculturalLines(p)
    + [ ConsiderationsLine, RequestLine ]
  }

  /** `render_gestion`: the base render, untouched, then the extension after
      a blank line. A KeyError from the base propagates. */
  function RenderGestion(p: Dict): (r: Result<string, string>)
    ensures r.Success? <==> HasRequiredKeys(p)
    ensures r.Failure? ==> r.error == RenderBase(p).error
    ensures r.Success? ==> StartsWith(r.value, RenderBase(p).value)
    ensures r.Success? ==> StartsWith(r.value[|RenderBase(p).value|..], "\n" + Header + "\n")
  {
    Extend(p, ExtensionLines(p))
  }

  lemma DefaultsOnlyWhenAbsent(p: Dict)
    ensures ExtensionLines(p)[1] == AreaLabel + AreaDefault <==> "area_operativa" !in p || p["area_operativa"] == Str(AreaDefault)
    ensures ExtensionLines(p)[2] == HorizonLabel + HorizonDefault <==> "horizonte" !in p || p["horizonte"] == Str(HorizonDefault)
  {
    DefaultLine(p, "area_operativa", AreaLabel, AreaDefault);
    DefaultLine(p, "horizonte", HorizonLabel, HorizonDefault);
  }

  /** A list is listed item by item; a string is iterated character by
      character. */
  lemma CropsListed(p: Dict)
    requires Truthy(Specialization(p))
    ensures Specialization(p).Items? ==> AgriculturalLines(p) == [AgriculturalLead + Join(", ", Specialization(p).items) + "."]
    ensures Specialization(p).Str? ==>
      var s := Specialization(p).s;
      && |Iterated(Specialization(p))| == |s|
      && forall i :: 0 <= i < |s| ==> Iterated(Specialization(p))[i] == [s[i]]
  {
  }

  lemma RenderGestionLines(p: Dict)
    requires HasRequiredKeys(p)
    requires AllSingleLine(BaseLines(p) + SpecializationLines(p) + ExtensionLines(p))
    ensures SplitLines(RenderGestion(p).value) == BaseLines(p) + SpecializationLines(p) + [""] + ExtensionLines(p)
  {
    ExtendLines(p, ExtensionLines(p));
  }
}
