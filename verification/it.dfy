/** The IT template: the base followed by a technical extension with the
    stack and the expected technical level. */
module ItTemplate {
  import opened Results
  import opened PyText
  import opened PyDict
  import opened Prom9Base

  const Header: string := "[Extensión IT]"
  const StackLabel: string := "- Stack/entorno: "
  const LevelLabel: string := "- Nivel técnico esperado: "
  const StackDefault: string := "No especificado"
  const LevelDefault: string := "Senior"
  const ConsiderationsLine: string := "- Consideraciones: seguridad, escalabilidad, mantenibilidad y pruebas."
  const RequestLine: string := "- Solicitud adicional: propone pasos de implementación y riesgos técnicos."

  /** The five lines of the IT extension. */
  function ExtensionLines(p: Dict): (lines: seq<string>)
    ensures |lines| == 5
    ensures lines[0] == Header && lines[3] == ConsiderationsLine && lines[4] == RequestLine
  {
    [ Header,
      StackLabel + Display(Get(p, "stack", Str(StackDefault))),
      LevelLabel + Display(Get(p, "nivel_tecnico", Str(LevelDefault))),
      ConsiderationsLine,
      RequestLine ]
  }

  /** `render_it`: the base render, untouched, then the extension after a
      blank line. A KeyError from the base propagates. */
  function RenderIt(p: Dict): (r: Result<string, string>)
    ensures r.Success? <==> HasRequiredKeys(p)
    ensures r.Failure? ==> r.error == RenderBase(p).error
    ensures r.Success? ==> StartsWith(r.value, RenderBase(p).value)
    ensures r.Success? ==> StartsWith(r.value[|RenderBase(p).value|..], "\n" + Header + "\n")
  {
    Extend(p, ExtensionLines(p))
  }

  /** Each default shows exactly when its key is absent (or holds the
      default itself). */
  lemma DefaultsOnlyWhenAbsent(p: Dict)
    ensures ExtensionLines(p)[1] == StackLabel + StackDefault <==> "stack" !in p || p["stack"] == Str(StackDefault)
    ensures ExtensionLines(p)[2] == LevelLabel + LevelDefault <==> "nivel_tecnico" !in p || p["nivel_tecnico"] == Str(LevelDefault)
  {
    DefaultLine(p, "stack", StackLabel, StackDefault);
    DefaultLine(p, "nivel_tecnico", LevelLabel, LevelDefault);
  }

  /** The IT extension never mentions the agricultural specialisation:
      whatever the payload holds under that key, the extension is the same. */
  lemma IgnoresSpecialization(p: Dict, v: Value)
    ensures ExtensionLines(p[SpecializationKey := v]) == ExtensionLines(p)
    ensures ExtensionLines(p - {SpecializationKey}) == ExtensionLines(p)
  {
  }

  /** Read line by line: the base lines, a blank line, the five extension
      lines. */
  lemma RenderItLines(p: Dict)
    requires HasRequiredKeys(p)
    requires AllSingleLine(BaseLines(p) + SpecializationLines(p) + ExtensionLines(p))
    ensures SplitLines(RenderIt(p).value) == BaseLines(p) + SpecializationLines(p) + [""] + ExtensionLines(p)
  {
    ExtendLines(p, ExtensionLines(p));
  }
}
