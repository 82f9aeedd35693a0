/** The sales template: the base followed by a commercial extension with the
    target segment, the value proposition and, when the profile has an
    agricultural specialisation, a line adapting the pitch to it. */
module VentasTemplate {
  import opened Results
  import opened PyText
  import opened PyDict
  import opened Prom9Base

  const Header: string := "[Extensión Ventas]"
  const SegmentLabel: string := "- Segmento objetivo: "
  const ValueLabel: string := "- Propuesta de valor: "
  const SegmentDefault: string := "General"
  const ValueDefault: string := "No especificada"
  const AgriculturalLead: string :=
    "- Contexto agrícola aplicado: adapta los argumentos comerciales, ejemplos de oferta y objeciones al mercado de "
  const KpiLine: string := "- KPIs sugeridos: ratio de conversión, ticket medio, tiempo de cierre."
  const RequestLine: string := "- Solicitud adicional: redacta argumentos y objeciones con cierre persuasivo."

  /** `_contexto_agricola_ventas` without its newline: present exactly when
      the specialisation is truthy. */
  function AgriculturalLines(p: Dict): (lines: seq<string>)
    ensures |lines| <= 1
    ensures |lines| == 1 <==> Truthy(Specialization(p))
  {
    if !Truthy(Specialization(p)) then [] else [AgriculturalLead + IteratedCrops(p) + "."]
  }

  /** The lines of the sales extension; the KPI and request lines always
      close it, after the optional agricultural line. */
  function ExtensionLines(p: Dict): (lines: seq<string>)
    ensures |lines| == 5 + |AgriculturalLines(p)|
    ensures lines[0] == Header
    ensures lines[3..|lines| - 2] == AgriculturalLines(p)
    ensures lines[|lines| - 2] == KpiLine && lines[|lines| - 1] == RequestLine
  {
    [ Header,
      SegmentLabel + Display(Get(p, "segmento", Str(SegmentDefault))),
      ValueLabel + Display(Get(p, "propuesta_valor", Str(ValueDefault))) ]
    + AgriculturalLines(p)
    + [ KpiLine, RequestLine ]
  }

  /** `render_ventas`: the base render, untouched, then the extension after a
      blank line. A KeyError from the base propagates. */
  function RenderVentas(p: Dict): (r: Result<string, string>)
    ensures r.Success? <==> HasRequiredKeys(p)
    ensures r.Failure? ==> r.error == RenderBase(p).error
    ensures r.Success? ==> StartsWith(r.value, RenderBase(p).value)
    ensures r.Success? ==> StartsWith(r.value[|RenderBase(p).value|..], "\n" + Header + "\n")
  {
    Extend(p, ExtensionLines(p))
  }

  lemma DefaultsOnlyWhenAbsent(p: Dict)
    ensures ExtensionLines(p)[1] == SegmentLabel + SegmentDefault <==> "segmento" !in p || p["segmento"] == Str(SegmentDefault)
    ensures ExtensionLines(p)[2] == ValueLabel + ValueDefault <==> "propuesta_valor" !in p || p["propuesta_valor"] == Str(ValueDefault)
  {
    DefaultLine(p, "segmento", SegmentLabel, SegmentDefault);
    DefaultLine(p, "propuesta_valor", ValueLabel, ValueDefault);
  }

  /** A list is listed item by item; a string is iterated, so each of its
      characters becomes an item of its own -- unlike line 10 of the base,
      which splits a string on commas. */
  lemma CropsListed(p: Dict)
    requires Truthy(Specialization(p))
    ensures Specialization(p).Items? ==> AgriculturalLines(p) == [AgriculturalLead + Join(", ", Specialization(p).items) + "."]
    ensures Specialization(p).Str? ==>
      var s := Specialization(p).s;
      && |Iterated(Specialization(p))| == |s|
      && forall i :: 0 <= i < |s| ==> Iterated(Specialization(p))[i] == [s[i]]
  {
  }

  /** A single word such as `vid` is one crop on line 10 of the base, but
      the sales line lists each of its letters as a crop of its own. */
  lemma WordListedByLetter(p: Dict, s: string)
    requires SpecializationKey in p && p[SpecializationKey] == Str(s)
    requires Solid(s) && ',' !in s
    ensures SpecializationItems(Specialization(p)) == [s]
    ensures |Iterated(Specialization(p))| == |s|
    ensures forall i :: 0 <= i < |s| ==> Iterated(Specialization(p))[i] == [s[i]]
  {
    assert Specialization(p) == Str(s);
    WordIsOneItem(s);
  }

  /** A word without commas or surrounding spaces is a single crop on line 10. */
  lemma WordIsOneItem(s: string)
    requires Solid(s) && ',' !in s
    ensures SpecializationItems(Str(s)) == [s]
  {
    assert FirstIndexOf(s, {','}) == |s| by {
      assert forall j :: 0 <= j < |s| ==> s[j] in s;
    }
    assert s[..|s|] == s;
    assert Split(s, ',') == [s];
    StripSolid(s);
    assert Piece(s) == [s];
    StrippedNonBlankCons(s, []);
    assert [s] + [] == [s];
  }

  lemma RenderVentasLines(p: Dict)
    requires HasRequiredKeys(p)
    requires AllSingleLine(BaseLines(p) + SpecializationLines(p) + ExtensionLines(p))
    ensures SplitLines(RenderVentas(p).value) == BaseLines(p) + SpecializationLines(p) + [""] + ExtensionLines(p)
  {
    ExtendLines(p, ExtensionLines(p));
  }
}
