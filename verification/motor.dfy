/** The prompt engine proper: it builds the template payload from the task
    data, the profile and the context, routes on the normalised area to one
    of the four templates, and joins the rendered template, the attachment
    section and, for IT, the technical guidelines into the final prompt. */
module Motor {
  import opened Results
  import opened PyText
  import opened PyDict
  import opened Prom9Base
  import Attachments
  import ItTemplate
  import VentasTemplate
  import ContabilidadTemplate
  import GestionTemplate

  /** `DIRECTRICES_TECNICAS_IT`: a heading, a blank line and seven rules,
      one of them wrapped over two lines, each line newline-terminated. */
  const DirectricesTecnicasIt: string :=
    "### Directrices obligatorias de análisis técnico\n"
    + "\n"
    + "- No asumir comportamiento de código no mostrado.\n"
    + "- Señalar debilidades técnicas detectadas.\n"
    + "- Indicar riesgos y problemas potenciales.\n"
    + "- Si faltan archivos o funciones para análisis completo,\n"
    + "  solicitarlos explícitamente antes de proponer solución final.\n"
    + "- No validar decisiones por cortesía.\n"
    + "- Mantener tono profesional, crítico y técnico.\n"
    + "- No incluir elogios ni frases motivacionales.\n"

  const SectionSeparator: string := "\n\n"

  datatype Area = It | Ventas | Contabilidad | Gestion

  /** `_normalizar_area`. */
  function NormalizarArea(area: string): string {
    Lower(Strip(area))
  }

  /** The template the engine picks: three names select their own template
      and every other string, the empty one included, selects gestión. */
  function Route(area: string): (a: Area)
    ensures a == Gestion <==> NormalizarArea(area) !in {"it", "ventas", "contabilidad"}
  {
    var n := NormalizarArea(area);
    if n == "it" then It
    else if n == "ventas" then Ventas
    else if n == "contabilidad" then Contabilidad
    else Gestion
  }

  /** Routing ignores surrounding whitespace. */
  lemma RouteIgnoresPadding(before: string, area: string, after: string)
    requires IsBlank(before) && IsBlank(after)
    ensures Route(before + area + after) == Route(area)
  {
    StripPadded(before, area, after);
  }

  /** Routing ignores the case of ASCII letters. */
  lemma RouteIgnoresCase(a: string, b: string)
    requires Lower(a) == Lower(b)
    ensures Route(a) == Route(b)
  {
    LowerStrip(a);
    LowerStrip(b);
  }

  /** An area already in normal form routes as itself. */
  lemma NormalizedArea(area: string)
    requires Solid(area) && Lower(area) == area
    ensures NormalizarArea(area) == area
  {
    TrimLeftSolid(area);
    TrimRightAfterSolid(area, "");
    assert area + "" == area;
  }

  /** The name that selects each template. */
  function AreaName(a: Area): string {
    match a
    case It => "it"
    case Ventas => "ventas"
    case Contabilidad => "contabilidad"
    case Gestion => "gestion"
  }

  /** Every template is selected by its own name: routing inverts naming. */
  lemma RouteName(a: Area)
    ensures Route(AreaName(a)) == a
  {
    var w := AreaName(a);
    assert NormalizarArea(w) == w by {
      assert forall i :: 0 <= i < |w| ==> 'a' <= w[i] <= 'z';
      LowerWordNormalized(w);
    }
    RouteNormal(w);
  }

  /** On a name already in normal form, routing is a plain comparison. */
  lemma RouteNormal(n: string)
    requires NormalizarArea(n) == n
    ensures Route(n) == if n == "it" then It else if n == "ventas" then Ventas
                        else if n == "contabilidad" then Contabilidad else Gestion
  {
  }

  /** A blank or empty area selects gestión. */
  lemma RouteBlank(area: string)
    requires IsBlank(area)
    ensures Route(area) == Gestion
  {
    assert Lower("") == "";
  }

  /** A non-empty word of lower-case ASCII letters is its own normal form. */
  lemma LowerWordNormalized(w: string)
    requires |w| > 0 && forall i :: 0 <= i < |w| ==> 'a' <= w[i] <= 'z'
    ensures NormalizarArea(w) == w
  {
    assert Lower(w) == w;
    NormalizedArea(w);
  }

  // ---------------------------------------------------------------------
  // Payload
  // ---------------------------------------------------------------------

  /** `datos_tarea.get("area", "")`. */
  function AreaOf(datos: map<string, string>): string {
    if "area" in datos then datos["area"] else ""
  }

  /** `datos_tarea.get(key, fallback)`. */
  function TaskField(datos: map<string, string>, key: string, fallback: string): Value {
    Str(if key in datos then datos[key] else fallback)
  }

  /** The nine base keys, from the profile, the context and the task. */
  function BasePayload(datos: map<string, string>, perfil: Dict, contexto: Dict): Dict {
    map[
      "perfil_nombre" := Get(perfil, "nombre", Str("Usuario")),
      "perfil_rol" := Get(perfil, "rol", Str("Profesional")),
      "contexto_nombre" := Get(contexto, "nombre", Str("General")),
      "contexto_rol" := Get(contexto, "rol_contextual", Str("Asistente")),
      "objetivo" := TaskField(datos, "objetivo", ""),
      "entradas" := TaskField(datos, "entradas", ""),
      "restricciones" := TaskField(datos, "restricciones", ""),
      "formato_salida" := TaskField(datos, "formato_salida", ""),
      "prioridad" := TaskField(datos, "prioridad", "Media")
    ]
  }

  /** The two extension keys each area adds, with the engine's own defaults. */
  function AreaPayload(a: Area, datos: map<string, string>): Dict {
    match a
    case It => map["stack" := TaskField(datos, "stack", "Python 3.9+"),
                   "nivel_tecnico" := TaskField(datos, "nivel_tecnico", "Senior")]
    case Ventas => map["segmento" := TaskField(datos, "segmento", "B2B"),
                       "propuesta_valor" := TaskField(datos, "propuesta_valor", "")]
    case Contabilidad => map["normativa" := TaskField(datos, "normativa", "PGC"),
                             "periodo" := TaskField(datos, "periodo", "")]
    case Gestion => map["area_operativa" := TaskField(datos, "area_operativa", "Operaciones"),
                        "horizonte" := TaskField(datos, "horizonte", "Trimestral")]
  }

  function AreaKeys(a: Area): set<string> {
    match a
    case It => {"stack", "nivel_tecnico"}
    case Ventas => {"segmento", "propuesta_valor"}
    case Contabilidad => {"normativa", "periodo"}
    case Gestion => {"area_operativa", "horizonte"}
  }

  /** The payload `generar_prompt` hands to the template: the nine base keys
      and the two keys of the routed area, and nothing else -- in particular
      never the agricultural specialisation. */
  function BuildPayload(datos: map<string, string>, perfil: Dict, contexto: Dict): (p: Dict)
    ensures HasRequiredKeys(p)
    ensures SpecializationKey !in p
  {
    var a := Route(AreaOf(datos));
    BasePayloadKeys(datos, perfil, contexto);
    AreaPayloadKeys(a, datos);
    BasePayload(datos, perfil, contexto) + AreaPayload(a, datos)
  }

  /** The base payload holds the nine base keys and not the specialisation. */
  lemma BasePayloadKeys(datos: map<string, string>, perfil: Dict, contexto: Dict)
    ensures HasRequiredKeys(BasePayload(datos, perfil, contexto))
    ensures SpecializationKey !in BasePayload(datos, perfil, contexto)
  {
  }

  /** Each area payload holds exactly its two keys, never the specialisation. */
  lemma AreaPayloadKeys(a: Area, datos: map<string, string>)
    ensures AreaPayload(a, datos).Keys == AreaKeys(a)
    ensures SpecializationKey !in AreaKeys(a)
  {
  }

  /** No base key is the key of an area extension. */
  lemma RequiredNotAreaKey(a: Area)
    ensures forall k :: k in RequiredKeys ==> k !in AreaKeys(a)
  {
  }

  /** The base values, key by key, before the area keys are added. */
  lemma BaseValues(datos: map<string, string>, perfil: Dict, contexto: Dict)
    ensures var b := BasePayload(datos, perfil, contexto);
      && b["perfil_nombre"] == Get(perfil, "nombre", Str("Usuario"))
      && b["perfil_rol"] == Get(perfil, "rol", Str("Profesional"))
      && b["contexto_nombre"] == Get(contexto, "nombre", Str("General"))
      && b["contexto_rol"] == Get(contexto, "rol_contextual", Str("Asistente"))
      && b["objetivo"] == TaskField(datos, "objetivo", "")
      && b["entradas"] == TaskField(datos, "entradas", "")
      && b["restricciones"] == TaskField(datos, "restricciones", "")
      && b["formato_salida"] == TaskField(datos, "formato_salida", "")
      && b["prioridad"] == TaskField(datos, "prioridad", "Media")
  {
  }

  /** Each profile default applies only when its key is absent; a present
      value, even an empty one, is kept. */
  lemma ProfileDefaults(datos: map<string, string>, perfil: Dict, contexto: Dict)
    ensures var p := BuildPayload(datos, perfil, contexto);
      && p["perfil_nombre"] == (if "nombre" in perfil then perfil["nombre"] else Str("Usuario"))
      && p["perfil_rol"] == (if "rol" in perfil then perfil["rol"] else Str("Profesional"))
  {
    BaseKeyKeptAt(datos, perfil, contexto, 0);
    BaseKeyKeptAt(datos, perfil, contexto, 1);
    assert RequiredKeys[0] == "perfil_nombre" && RequiredKeys[1] == "perfil_rol";
    BaseValues(datos, perfil, contexto);
  }

  /** Each context default applies only when its key is absent; the
      contextual role is read from `rol_contextual`. */
  lemma ContextDefaults(datos: map<string, string>, perfil: Dict, contexto: Dict)
    ensures var p := BuildPayload(datos, perfil, contexto);
      && p["contexto_nombre"] == (if "nombre" in contexto then contexto["nombre"] else Str("General"))
      && p["contexto_rol"] == (if "rol_contextual" in contexto then contexto["rol_contextual"] else Str("Asistente"))
  {
    BaseKeyKeptAt(datos, perfil, contexto, 2);
    BaseKeyKeptAt(datos, perfil, contexto, 3);
    assert RequiredKeys[2] == "contexto_nombre" && RequiredKeys[3] == "contexto_rol";
    BaseValues(datos, perfil, contexto);
  }

  /** The task fields default to the empty text, and the priority to
      `Media`, only when absent. */
  lemma TaskDefaults(datos: map<string, string>, perfil: Dict, contexto: Dict)
    ensures var p := BuildPayload(datos, perfil, contexto);
      && p["objetivo"] == Str(if "objetivo" in datos then datos["objetivo"] else "")
      && p["entradas"] == Str(if "entradas" in datos then datos["entradas"] else "")
      && p["restricciones"] == Str(if "restricciones" in datos then datos["restricciones"] else "")
      && p["formato_salida"] == Str(if "formato_salida" in datos then datos["formato_salida"] else "")
      && p["prioridad"] == Str(if "prioridad" in datos then datos["prioridad"] else "Media")
  {
    BaseKeyKeptAt(datos, perfil, contexto, 4);
    BaseKeyKeptAt(datos, perfil, contexto, 5);
    BaseKeyKeptAt(datos, perfil, contexto, 6);
    BaseKeyKeptAt(datos, perfil, contexto, 7);
    BaseKeyKeptAt(datos, perfil, contexto, 8);
    assert RequiredKeys[4] == "objetivo" && RequiredKeys[5] == "entradas" && RequiredKeys[6] == "restricciones";
    assert RequiredKeys[7] == "formato_salida" && RequiredKeys[8] == "prioridad";
    BaseValues(datos, perfil, contexto);
  }

  /** The area's keys never overwrite a base key. */
  lemma BaseKeysKept(datos: map<string, string>, perfil: Dict, contexto: Dict)
    ensures forall k :: k in RequiredKeys ==> BuildPayload(datos, perfil, contexto)[k] == BasePayload(datos, perfil, contexto)[k]
  {
    AreaKeysDisjoint(Route(AreaOf(datos)), datos);
  }

  /** The same, for the base key at one position. */
  lemma BaseKeyKeptAt(datos: map<string, string>, perfil: Dict, contexto: Dict, i: nat)
    requires i < |RequiredKeys|
    ensures RequiredKeys[i] in BasePayload(datos, perfil, contexto)
    ensures BuildPayload(datos, perfil, contexto)[RequiredKeys[i]] == BasePayload(datos, perfil, contexto)[RequiredKeys[i]]
  {
    BasePayloadKeys(datos, perfil, contexto);
    AreaPayloadKeys(Route(AreaOf(datos)), datos);
    RequiredNotAreaKey(Route(AreaOf(datos)));
  }

  lemma AreaKeysDisjoint(a: Area, datos: map<string, string>)
    ensures forall k :: k in RequiredKeys ==> k !in AreaPayload(a, datos)
  {
    AreaPayloadKeys(a, datos);
    RequiredNotAreaKey(a);
  }

  /** The engine's defaults for the IT keys, each used only when the task
      lacks the key. */
  lemma ItPayloadDefaults(datos: map<string, string>, perfil: Dict, contexto: Dict)
    requires Route(AreaOf(datos)) == It
    ensures var p := BuildPayload(datos, perfil, contexto);
      && "stack" in p && p["stack"] == Str(if "stack" in datos then datos["stack"] else "Python 3.9+")
      && "nivel_tecnico" in p && p["nivel_tecnico"] == Str(if "nivel_tecnico" in datos then datos["nivel_tecnico"] else "Senior")
  {
    AreaPayloadKeys(It, datos);
  }

  /** The engine's defaults for the sales keys: segment `B2B`, an empty
      value proposition. */
  lemma VentasPayloadDefaults(datos: map<string, string>, perfil: Dict, contexto: Dict)
    requires Route(AreaOf(datos)) == Ventas
    ensures var p := BuildPayload(datos, perfil, contexto);
      && "segmento" in p && p["segmento"] == Str(if "segmento" in datos then datos["segmento"] else "B2B")
      && "propuesta_valor" in p && p["propuesta_valor"] == Str(if "propuesta_valor" in datos then datos["propuesta_valor"] else "")
  {
    AreaPayloadKeys(Ventas, datos);
  }

  /** The engine's defaults for the accounting keys: framework `PGC`, an
      empty period. */
  lemma ContabilidadPayloadDefaults(datos: map<string, string>, perfil: Dict, contexto: Dict)
    requires Route(AreaOf(datos)) == Contabilidad
    ensures var p := BuildPayload(datos, perfil, contexto);
      && "normativa" in p && p["normativa"] == Str(if "normativa" in datos then datos["normativa"] else "PGC")
      && "periodo" in p && p["periodo"] == Str(if "periodo" in datos then datos["periodo"] else "")
  {
    AreaPayloadKeys(Contabilidad, datos);
  }

  /** The engine's defaults for the management keys: area `Operaciones`,
      horizon `Trimestral`. */
  lemma GestionPayloadDefaults(datos: map<string, string>, perfil: Dict, contexto: Dict)
    requires Route(AreaOf(datos)) == Gestion
    ensures var p := BuildPayload(datos, perfil, contexto);
      && "area_operativa" in p && p["area_operativa"] == Str(if "area_operativa" in datos then datos["area_operativa"] else "Operaciones")
      && "horizonte" in p && p["horizonte"] == Str(if "horizonte" in datos then datos["horizonte"] else "Trimestral")
  {
    AreaPayloadKeys(Gestion, datos);
  }

  /** The engine fills both extension keys of the routed area, so a template
      default shows only when the engine's default for that key is the same
      text or the task itself holds it. For IT the stack default differs
      from the engine's and is never reached; the level default `Senior` is
      the engine's too, so it shows whenever the task has no level. */
  lemma ItDefaultUnreached(datos: map<string, string>, perfil: Dict, contexto: Dict)
    requires Route(AreaOf(datos)) == It
    ensures ItTemplate.ExtensionLines(BuildPayload(datos, perfil, contexto))[1] == ItTemplate.StackLabel + ItTemplate.StackDefault
        <==> "stack" in datos && datos["stack"] == ItTemplate.StackDefault
    ensures ItTemplate.ExtensionLines(BuildPayload(datos, perfil, contexto))[2] == ItTemplate.LevelLabel + ItTemplate.LevelDefault
        <==> "nivel_tecnico" !in datos || datos["nivel_tecnico"] == ItTemplate.LevelDefault
  {
    ItPayloadDefaults(datos, perfil, contexto);
    ItTemplate.DefaultsOnlyWhenAbsent(BuildPayload(datos, perfil, contexto));
  }

  /** For sales neither template default is the engine's, so each shows
      only when the task holds that text. */
  lemma VentasDefaultUnreached(datos: map<string, string>, perfil: Dict, contexto: Dict)
    requires Route(AreaOf(datos)) == Ventas
    ensures VentasTemplate.ExtensionLines(BuildPayload(datos, perfil, contexto))[1] == VentasTemplate.SegmentLabel + VentasTemplate.SegmentDefault
        <==> "segmento" in datos && datos["segmento"] == VentasTemplate.SegmentDefault
    ensures VentasTemplate.ExtensionLines(BuildPayload(datos, perfil, contexto))[2] == VentasTemplate.ValueLabel + VentasTemplate.ValueDefault
        <==> "propuesta_valor" in datos && datos["propuesta_valor"] == VentasTemplate.ValueDefault
  {
    VentasPayloadDefaults(datos, perfil, contexto);
    VentasTemplate.DefaultsOnlyWhenAbsent(BuildPayload(datos, perfil, contexto));
  }

  /** For accounting neither template default is the engine's. */
  lemma ContabilidadDefaultUnreached(datos: map<string, string>, perfil: Dict, contexto: Dict)
    requires Route(AreaOf(datos)) == Contabilidad
    ensures ContabilidadTemplate.ExtensionLines(BuildPayload(datos, perfil, contexto))[1]
            == ContabilidadTemplate.FrameworkLabel + ContabilidadTemplate.FrameworkDefault
        <==> "normativa" in datos && datos["normativa"] == ContabilidadTemplate.FrameworkDefault
    ensures ContabilidadTemplate.ExtensionLines(BuildPayload(datos, perfil, contexto))[2]
            == ContabilidadTemplate.PeriodLabel + ContabilidadTemplate.PeriodDefault
        <==> "periodo" in datos && datos["periodo"] == ContabilidadTemplate.PeriodDefault
  {
    ContabilidadPayloadDefaults(datos, perfil, contexto);
    ContabilidadTemplate.DefaultsOnlyWhenAbsent(BuildPayload(datos, perfil, contexto));
  }

  /** For management neither template default is the engine's. */
  lemma GestionDefaultUnreached(datos: map<string, string>, perfil: Dict, contexto: Dict)
    requires Route(AreaOf(datos)) == Gestion
    ensures GestionTemplate.ExtensionLines(BuildPayload(datos, perfil, contexto))[1] == GestionTemplate.AreaLabel + GestionTemplate.AreaDefault
        <==> "area_operativa" in datos && datos["area_operativa"] == GestionTemplate.AreaDefault
    ensures GestionTemplate.ExtensionLines(BuildPayload(datos, perfil, contexto))[2] == GestionTemplate.HorizonLabel + GestionTemplate.HorizonDefault
        <==> "horizonte" in datos && datos["horizonte"] == GestionTemplate.HorizonDefault
  {
    GestionPayloadDefaults(datos, perfil, contexto);
    GestionTemplate.DefaultsOnlyWhenAbsent(BuildPayload(datos, perfil, contexto));
  }

  /** No generated prompt carries line 10 of the base or an agricultural
      line, since the payload never holds the specialisation. */
  lemma NoSpecializationLines(datos: map<string, string>, perfil: Dict, contexto: Dict)
    ensures var p := BuildPayload(datos, perfil, contexto);
      && FormatearEspecializacionAgricola(p) == ""
      && VentasTemplate.AgriculturalLines(p) == []
      && GestionTemplate.AgriculturalLines(p) == []
  {
  }

  // ---------------------------------------------------------------------
  // Rendering and assembly
  // ---------------------------------------------------------------------

  /** The routed template's render of a payload that has the base keys. */
  function Render(a: Area, p: Dict): (prompt: string)
    requires HasRequiredKeys(p)
    ensures StartsWith(prompt, RenderBase(p).value)
    ensures StartsWith(prompt, Title + "\n")
  {
    var r := match a
      case It => ItTemplate.RenderIt(p)
      case Ventas => VentasTemplate.RenderVentas(p)
      case Contabilidad => ContabilidadTemplate.RenderContabilidad(p)
      case Gestion => GestionTemplate.RenderGestion(p);
    StartsWithTransitive(r.value, RenderBase(p).value, Title + "\n");
    r.value
  }

  lemma StartsWithTransitive(s: string, t: string, u: string)
    requires StartsWith(s, t) && StartsWith(t, u)
    ensures StartsWith(s, u)
  {
    assert s[..|u|] == s[..|t|][..|u|];
  }

  /** The rendered template of a task. */
  function Prompt(datos: map<string, string>, perfil: Dict, contexto: Dict): string {
    Render(Route(AreaOf(datos)), BuildPayload(datos, perfil, contexto))
  }

  /** The attachment section as a list of zero or one sections; a reading
      error aborts. */
  function AttachedSections(adjuntos: seq<string>, fs: Attachments.FileSystem): (r: Result<seq<string>, Attachments.AttachError>)
    ensures r.Success? ==> |r.value| == (if |adjuntos| == 0 then 0 else 1)
  {
    if |adjuntos| == 0 then Success([])
    else
      var seccion :- Attachments.LeerArchivos(adjuntos, Attachments.MaxCharsDefault, fs);
      Success([seccion])
  }

  /** `generar_prompt`: the rendered template, then the attachment section
      when there are attachments, then the guidelines when the area is IT,
      joined by blank lines after dropping whitespace-only sections. The
      result is not stripped. */
  function GenerarPrompt(datos: map<string, string>, perfil: Dict, contexto: Dict,
                         adjuntos: seq<string>, fs: Attachments.FileSystem): (r: Result<string, Attachments.AttachError>)
    ensures r.Failure? <==> |adjuntos| > 0 && Attachments.LeerArchivos(adjuntos, Attachments.MaxCharsDefault, fs).Failure?
    ensures r.Failure? ==> r.error == Attachments.LeerArchivos(adjuntos, Attachments.MaxCharsDefault, fs).error
  {
    var attached :- AttachedSections(adjuntos, fs);
    Success(Assemble(Prompt(datos, perfil, contexto), attached, Guidelines(Route(AreaOf(datos)))))
  }

  function Guidelines(a: Area): seq<string> {
    if a == It then [DirectricesTecnicasIt] else []
  }

  /** `"\n\n".join(s for s in sections if s.strip())`. */
  function Assemble(prompt: string, attached: seq<string>, guidelines: seq<string>): string {
    Join(SectionSeparator, KeepNonBlank([prompt] + attached + guidelines))
  }

  /** With no whitespace-only section, nothing is dropped and the sections
      follow one another with a blank line between them. */
  lemma AssembleLayout(prompt: string, attached: seq<string>, guidelines: seq<string>)
    requires |attached| <= 1 && |guidelines| <= 1
    requires !IsBlank(prompt)
    requires forall k :: 0 <= k < |attached| ==> !IsBlank(attached[k])
    requires forall k :: 0 <= k < |guidelines| ==> !IsBlank(guidelines[k])
    ensures Assemble(prompt, attached, guidelines) == prompt + Optional(attached) + Optional(guidelines)
  {
    var rest := attached + guidelines;
    NoneBlank(prompt, attached, guidelines);
    assert [prompt] + attached + guidelines == [prompt] + rest;
    JoinAsPrefixed(SectionSeparator, prompt, rest);
    PrefixedAppend(SectionSeparator, attached, guidelines);
    ConcatAppend(Prefixed(SectionSeparator, attached), Prefixed(SectionSeparator, guidelines));
    OptionalIsPrefixed(attached);
    OptionalIsPrefixed(guidelines);
  }

  /** With no section blank, keeping the non-blank sections keeps them all. */
  lemma NoneBlank(prompt: string, attached: seq<string>, guidelines: seq<string>)
    requires !IsBlank(prompt)
    requires forall k :: 0 <= k < |attached| ==> !IsBlank(attached[k])
    requires forall k :: 0 <= k < |guidelines| ==> !IsBlank(guidelines[k])
    ensures KeepNonBlank([prompt] + attached + guidelines) == [prompt] + attached + guidelines
  {
    NoneBlankAppend([prompt], attached);
    NoneBlankAppend([prompt] + attached, guidelines);
  }

  /** A section that may be absent, with the separator in front of it. */
  function Optional(xs: seq<string>): string
    requires |xs| <= 1
  {
    if |xs| == 1 then SectionSeparator + xs[0] else ""
  }

  lemma OptionalIsPrefixed(xs: seq<string>)
    requires |xs| <= 1
    ensures Concat(Prefixed(SectionSeparator, xs)) == Optional(xs)
  {
    if |xs| == 1 {
      assert Prefixed(SectionSeparator, xs) == [SectionSeparator + xs[0]];
      assert Concat([SectionSeparator + xs[0]]) == SectionSeparator + xs[0] + Concat([]);
    }
  }

  lemma PromptNotBlank(datos: map<string, string>, perfil: Dict, contexto: Dict)
    ensures !IsBlank(Prompt(datos, perfil, contexto))
  {
    TitledNotBlank(Prompt(datos, perfil, contexto));
  }

  lemma AttachmentNotBlank(adjuntos: seq<string>, fs: Attachments.FileSystem)
    requires |adjuntos| > 0 && Attachments.LeerArchivos(adjuntos, Attachments.MaxCharsDefault, fs).Success?
    ensures !IsBlank(Attachments.LeerArchivos(adjuntos, Attachments.MaxCharsDefault, fs).value)
  {
    var s := Attachments.LeerArchivos(adjuntos, Attachments.MaxCharsDefault, fs).value;
    var h := Attachments.SectionHeader;
    assert h[|h| - 1] == 's';
    assert s[|h| - 1] == s[..|h|][|h| - 1];
  }

  lemma GuidelinesNotBlank()
    ensures !IsBlank(DirectricesTecnicasIt)
  {
    var last := "- No incluir elogios ni frases motivacionales.\n";
    assert last[|last| - 2] == '.';
    var s := DirectricesTecnicasIt;
    assert s[|s| - 2] == '.';
  }

  /** No section is ever whitespace-only: the template starts with its
      title, the attachment section with its header, the guidelines with a
      heading. So nothing is dropped, and the prompt is exactly the sections
      one after the other with a blank line between them. */
  lemma GenerarPromptLayout(datos: map<string, string>, perfil: Dict, contexto: Dict,
                            adjuntos: seq<string>, fs: Attachments.FileSystem)
    requires GenerarPrompt(datos, perfil, contexto, adjuntos, fs).Success?
    ensures GenerarPrompt(datos, perfil, contexto, adjuntos, fs).value
         == Prompt(datos, perfil, contexto)
          + (if |adjuntos| > 0
             then SectionSeparator + Attachments.LeerArchivos(adjuntos, Attachments.MaxCharsDefault, fs).value
             else "")
          + (if Route(AreaOf(datos)) == It then SectionSeparator + DirectricesTecnicasIt else "")
  {
    var prompt := Prompt(datos, perfil, contexto);
    var attached := AttachedSections(adjuntos, fs).value;
    var guidelines := Guidelines(Route(AreaOf(datos)));
    GenerarPromptAssembles(datos, perfil, contexto, adjuntos, fs);
    PromptNotBlank(datos, perfil, contexto);
    AttachedOptional(adjuntos, fs);
    GuidelinesOptional(Route(AreaOf(datos)));
    AssembleLayout(prompt, attached, guidelines);
  }

  lemma GenerarPromptAssembles(datos: map<string, string>, perfil: Dict, contexto: Dict,
                               adjuntos: seq<string>, fs: Attachments.FileSystem)
    requires GenerarPrompt(datos, perfil, contexto, adjuntos, fs).Success?
    ensures AttachedSections(adjuntos, fs).Success?
    ensures GenerarPrompt(datos, perfil, contexto, adjuntos, fs).value
         == Assemble(Prompt(datos, perfil, contexto), AttachedSections(adjuntos, fs).value, Guidelines(Route(AreaOf(datos))))
  {
  }

  /** The attachment section, when there is one, is never whitespace-only. */
  lemma AttachedOptional(adjuntos: seq<string>, fs: Attachments.FileSystem)
    requires AttachedSections(adjuntos, fs).Success?
    ensures |AttachedSections(adjuntos, fs).value| <= 1
    ensures forall k :: 0 <= k < |AttachedSections(adjuntos, fs).value| ==> !IsBlank(AttachedSections(adjuntos, fs).value[k])
    ensures Optional(AttachedSections(adjuntos, fs).value)
         == if |adjuntos| > 0
            then SectionSeparator + Attachments.LeerArchivos(adjuntos, Attachments.MaxCharsDefault, fs).value
            else ""
  {
    if |adjuntos| > 0 {
      AttachmentNotBlank(adjuntos, fs);
    }
  }

  /** Only IT prompts carry the guidelines, and they are never blank. */
  lemma GuidelinesOptional(a: Area)
    ensures |Guidelines(a)| <= 1
    ensures forall k :: 0 <= k < |Guidelines(a)| ==> !IsBlank(Guidelines(a)[k])
    ensures Optional(Guidelines(a)) == if a == It then SectionSeparator + DirectricesTecnicasIt else ""
  {
    GuidelinesNotBlank();
  }

  /** The rendered template always opens the prompt, and an IT prompt
      always closes with the guidelines. */
  lemma GenerarPromptEnds(datos: map<string, string>, perfil: Dict, contexto: Dict,
                          adjuntos: seq<string>, fs: Attachments.FileSystem)
    requires GenerarPrompt(datos, perfil, contexto, adjuntos, fs).Success?
    ensures StartsWith(GenerarPrompt(datos, perfil, contexto, adjuntos, fs).value, Prompt(datos, perfil, contexto))
    ensures Route(AreaOf(datos)) == It ==> EndsWith(GenerarPrompt(datos, perfil, contexto, adjuntos, fs).value, DirectricesTecnicasIt)
  {
    GenerarPromptLayout(datos, perfil, contexto, adjuntos, fs);
    var attached := AttachedSections(adjuntos, fs).value;
    var guidelines := Guidelines(Route(AreaOf(datos)));
    PrefixAndSuffix(Prompt(datos, perfil, contexto), Optional(attached), guidelines);
  }

  lemma PrefixAndSuffix(prompt: string, middle: string, guidelines: seq<string>)
    requires |guidelines| <= 1
    ensures StartsWith(prompt + middle + Optional(guidelines), prompt)
    ensures |guidelines| == 1 ==> EndsWith(prompt + middle + Optional(guidelines), guidelines[0])
  {
    var s := prompt + middle + Optional(guidelines);
    assert s[..|prompt|] == prompt;
    if |guidelines| == 1 {
      assert s == (prompt + middle + SectionSeparator) + guidelines[0];
      assert s[|s| - |guidelines[0]|..] == guidelines[0];
    }
  }
}
