/** The accounting template: the base followed by an extension with the
    regulatory framework and the period under analysis. */
module ContabilidadTemplate {
  import opened Results
  import opened PyText
  import opened PyDict
  import opened Prom9Base

  const Header: string := "[Extensión Contabilidad]"
  const FrameworkLabel: string := "- Marco normativo: "
  const PeriodLabel: string := "- Periodo de análisis: "
  const FrameworkDefault: string := "PGC/NIIF según aplique"
  const PeriodDefault: string := "No especificado"
  const ConsiderationsLine: string := "- Consideraciones: trazabilidad, conciliación y cumplimiento fiscal."
  const RequestLine: string := "- Solicitud adicional: incluye asientos sugeridos y validaciones clave."

  /** The five lines of the accounting extension. */
  function ExtensionLines(p: Dict): (lines: seq<string>)
    ensures |lines| == 5
    ensures lines[0] == Header && lines[3] == ConsiderationsLine && lines[4] == RequestLine
  {
    [ Header,
      FrameworkLabel + Display(Get(p, "normativa", Str(FrameworkDefault))),
      PeriodLabel + Display(Get(p, "periodo", Str(PeriodDefault))),
      ConsiderationsLine,
      RequestLine ]
  }

  /** `render_contabilidad`: the base render, untouched, then the extension
      after a blank line. A KeyError from the base propagates. */
  function RenderContabilidad(p: Dict): (r: Result<string, string>)
    ensures r.Success? <==> HasRequiredKeys(p)
    ensures r.Failure? ==> r.error == RenderBase(p).error
    ensures r.Success? ==> StartsWith(r.value, RenderBase(p).value)
    ensures r.Success? ==> StartsWith(r.value[|RenderBase(p).value|..], "\n" + Header + "\n")
  {
    Extend(p, ExtensionLines(p))
  }

  lemma DefaultsOnlyWhenAbsent(p: Dict)
    ensures ExtensionLines(p)[1] == FrameworkLabel + FrameworkDefault <==> "normativa" !in p || p["normativa"] == Str(FrameworkDefault)
    ensures ExtensionLines(p)[2] == PeriodLabel + PeriodDefault <==> "periodo" !in p || p["periodo"] == Str(PeriodDefault)
  {
    DefaultLine(p, "normativa", FrameworkLabel, FrameworkDefault);
    DefaultLine(p, "periodo", PeriodLabel, PeriodDefault);
  }

  /** The specialisation has no effect on the accounting extension. */
  lemma IgnoresSpecialization(p: Dict, v: Value)
    ensures ExtensionLines(p[SpecializationKey := v]) == ExtensionLines(p)
    ensures ExtensionLines(p - {SpecializationKey}) == ExtensionLines(p)
  {
  }

  lemma RenderContabilidadLines(p: Dict)
    requires HasRequiredKeys(p)
    requires AllSingleLine(BaseLines(p) + SpecializationLines(p) + ExtensionLines(p))
    ensures SplitLines(RenderContabilidad(p).value) == BaseLines(p) + SpecializationLines(p) + [""] + ExtensionLines(p)
  {
    ExtendLines(p, ExtensionLines(p));
  }
}
