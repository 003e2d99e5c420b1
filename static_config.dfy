/**
 * The older, flat variable configuration: a list of month-column names generated from a base
 * name, and a literal mapping each section title to `(pair, type, metadata)` triples.
 */
module StaticConfig {
  import opened Wrappers
  import opened Decimal
  import opened Declarations
  import opened ConfigSections

  /** How many previous months `generate_prevmonth_vars` names when not told otherwise. */
  const DefaultMonths: int := 4

  /** The names `baseName1`, ..., `baseNameN` for the previous `numMonths` months. */
  function GeneratePrevmonthVars(baseName: string, numMonths: int := DefaultMonths): (r: seq<string>)
    ensures |r| == if numMonths <= 0 then 0 else numMonths
    ensures forall i :: 0 <= i < |r| ==> r[i] == baseName + NatToString(i + 1)
    decreases if numMonths <= 0 then 0 else numMonths
  {
    if numMonths <= 0 then [] else GeneratePrevmonthVars(baseName, numMonths - 1) + [baseName + NatToString(numMonths)]
  }

  /** Without a count, four names are generated, ending in 1 to 4. */
  lemma DefaultIsFourMonths(baseName: string)
    ensures GeneratePrevmonthVars(baseName) == [baseName + "1", baseName + "2", baseName + "3", baseName + "4"]
  {
    var r := GeneratePrevmonthVars(baseName);
    assert NatToString(1) == "1" && NatToString(2) == "2";
    assert NatToString(3) == "3" && NatToString(4) == "4";
    assert r[0] == baseName + "1" && r[1] == baseName + "2";
    assert r[2] == baseName + "3" && r[3] == baseName + "4";
  }

  /** Each generated name is the base name followed by a number that reads back as its 1-based position. */
  lemma {:induction false} PrevmonthNamesParse(baseName: string, numMonths: int)
    ensures forall i :: 0 <= i < |GeneratePrevmonthVars(baseName, numMonths)| ==>
      var name := GeneratePrevmonthVars(baseName, numMonths)[i];
      |name| > |baseName| && name[..|baseName|] == baseName && ParseNat(name[|baseName|..]) == Some(i + 1)
  {
    var r := GeneratePrevmonthVars(baseName, numMonths);
    forall i | 0 <= i < |r|
      ensures |r[i]| > |baseName| && r[i][..|baseName|] == baseName && ParseNat(r[i][|baseName|..]) == Some(i + 1)
    {
      assert r[i][|baseName|..] == NatToString(i + 1);
      NatRoundTrip(i + 1);
    }
  }

  /** No month name is generated twice. */
  lemma PrevmonthNamesDistinct(baseName: string, numMonths: int)
    ensures forall i, j :: 0 <= i < j < |GeneratePrevmonthVars(baseName, numMonths)| ==>
      GeneratePrevmonthVars(baseName, numMonths)[i] != GeneratePrevmonthVars(baseName, numMonths)[j]
  {
    var r := GeneratePrevmonthVars(baseName, numMonths);
    PrevmonthNamesParse(baseName, numMonths);
    forall i, j | 0 <= i < j < |r|
      ensures r[i] != r[j]
    {
      assert ParseNat(r[i][|baseName|..]) == Some(i + 1);
      assert ParseNat(r[j][|baseName|..]) == Some(j + 1);
    }
  }

  /** The section "Optimización operativa". */
  const Flat1: seq<Triple> := [
    Triple(Pair(Cols(GeneratePrevmonthVars("producedunits_prevmonth", 4)), Col("producedunits_prevmonthc")), One(NUMERIC),
      Metadata(None, ("Número de unidades " + "producidas por mes"), None, None)),
    Triple(Pair(Cols(GeneratePrevmonthVars("targetunits_prevmonth", 4)), Col("targetunits_prevmonthc")), One(NUMERIC),
      Metadata(None, "Meta de producción mensual", None, None)),
    Triple(Pair(Cols(GeneratePrevmonthVars("defectiveunits_prevmonth", 4)), Col("defectiveunits_prevmonthc")), One(NUMERIC),
      Metadata(None, "Unidades defectuosas por mes", None, None)),
    Triple(Pair(Cols(GeneratePrevmonthVars("estimated_prod_time", 4)), Col("estimated_prod_timec")), One(NUMERIC),
      Metadata(None, ("Tiempo estimado de " + "producción"), None, None)),
    Triple(Pair(Cols(GeneratePrevmonthVars("actual_avg_prod_time", 4)), Col("actual_avg_prod_timec")), One(NUMERIC),
      Metadata(None, ("Tiempo real promedio de " + "producción"), None, None)),
    Triple(Pair(Col("observ_productionplant"), Col("observ_productionplantc")), One(CATEGORICAL),
      Metadata(None, ("Estado de la " + "distribución del espacio"), Some(ObservProductionplantCategories), None)),
    Triple(Pair(Col("invent_control"), Col("invent_controlc")), One(CATEGORICAL),
      Metadata(None, ("Realiza control de " + "inventario"), Some(InventControlCategories), None)),
    Triple(Pair(Col("knowsinput"), Col("knowsinputc")), One(BOOLEAN),
      Metadata(None, ("Conoce niveles óptimos " + "de inventario"), None, None)),
    Triple(Pair(Col("knows_standardtime"), Col("standard_timec")), One(BOOLEAN),
      Metadata(None, ("Conoce el tiempo " + "estándar de producción"), None, None)),
    Triple(Pair(Col("indicadores_eficiencia"), Col("indicadores_eficienciac")), One(DUMMY),
      Metadata(None, ("Tiene indicadores de " + "eficiencia"), None, None)),
    Triple(Pair(Col("indicadores_productividad"), Col("indicadores_productividadc")), One(DUMMY),
      Metadata(None, ("Tiene indicadores de " + "productividad"), None, None)),
    Triple(Pair(Col("index"), Col("hasindicatorsc")), One(BOOLEAN),
      Metadata(None, "Tiene indicadores generales", None, None))]

  /** The section "Mayor Calidad del Producto". */
  const Flat2: seq<Triple> := [
    Triple(Pair(Col("qualityprocess_sample"), Col("qualityprocess_samplec")), One(DUMMY),
      Metadata(None, ("Para garantizar la " + "calidad de los " + "productos: Realiza " +
        "muestra y contramuestra"), None, None)),
    Triple(Pair(Col("qualityprocess_set_machinery"), Col("qualityprocess_set_machineryc")), One(DUMMY),
      Metadata(None, ("Para garantizar la " + "calidad de los " + "productos: Realiza " +
        "preparación de máquinas"), None, None)),
    Triple(Pair(Col("qualityprocess_control_quality"), Col("qualityprocess_control_qualityc")), One(DUMMY),
      Metadata(None, ("Para garantizar la " + "calidad de los " + "productos: Tiene " +
        "controles de calidad"), None, None)),
    Triple(Pair(Col("qualityprocess_none"), Col("qualityprocess_nonec")), One(DUMMY),
      Metadata(None, ("Para garantizar la " + "calidad de los " + "productos: No tiene " +
        "procesos de calidad"), None, None)),
    Triple(Pair(Col("newideas_datasheet"), Col("newideas_designc")), One(CATEGORICAL),
      Metadata(None, ("Las ideas de los nuevos " + "diseños se registran en " + "una ficha técnica"), Some(NewideasDatasheetCategories), None)),
    Triple(Pair(Col("packaging"), Col("packagingc")), One(CATEGORICAL),
      Metadata(None, ("Cómo funciona en " + "general el empaque en " + "el negocio"), Some(PackagingCategories), None)),
    Triple(Pair(Col("software_design"), Col("software_designc")), One(BOOLEAN),
      Metadata(None, ("El negocio utiliza " + "algún software " + "especializado para el " +
        "diseño de sus productos"), None, None)),
    Triple(Pair(Col("patterns_digitized"), Col("digital_patternc")), One(BOOLEAN),
      Metadata(None, ("Los patrones están " + "digitalizados"), None, None)),
    Triple(Pair(Col("patterns_prevcollections"), Col("prev_patternc")), One(BOOLEAN),
      Metadata(None, ("El negocio usualmente " + "guarda los patrones de " + "colecciones anteriores"), None, None))]

  /** The section "Talento Humano". */
  const Flat3: seq<Triple> := [
    Triple(Pair(Col("emp_ft"), Col("emp_ftc")), One(NUMERIC),
      Metadata(None, ("Empleados de nómina " + "(afiliados por el " + "negocio al sistema de " +
        "salud y pensión)"), None, None)),
    Triple(Pair(Col("emp_total"), Col("emp_totalc")), One(NUMERIC),
      Metadata(None, "Empleados totales", None, None)),
    Triple(Pair(Col("hassalary"), Col("hassalaryc")), One(BOOLEAN),
      Metadata(None, ("Postulante recibe " + "sueldo fijo del negocio"), None, None)),
    Triple(Pair(Col("income"), Col("incomec")), One(NUMERIC),
      Metadata(None, ("Cuánto recibe de sueldo " + "fijo en un mes promedio"), None, None))]

  /** The section "Practicas Gerenciales". */
  const Flat4: seq<Triple> := [
    Triple(Pair(Col("price_system"), Col("price_systemc")), One(CATEGORICAL),
      Metadata(None, ("Los precios se fijan " + "con base en"), Some(PriceSystemCategories), None)),
    Triple(Pair(Col("knows_production_cost"), Col("knows_production_costc")), One(DUMMY),
      Metadata(None, ("En el negocio conoce: " + "El costo de producir " + "cada unidad de producto " +
        "o servicio"), None, None)),
    Triple(Pair(Col("knows_max_production"), Col("knows_max_productionc")), One(DUMMY),
      Metadata(None, ("En el negocio conoce: " + "Cantidad máxima de " + "productos que puedes " +
        "generar u ofrecer en un " + "periodo determinado " + "(por ejemplo: diaria, " +
        "semanal, mensual)"), None, None)),
    Triple(Pair(Col("knows_profit_margin"), Col("knows_profit_marginc")), One(DUMMY),
      Metadata(None, ("En el negocio conoce: " + "Porcentaje o margen de " + "ganancia de cada " +
        "producto o servicio"), None, None)),
    Triple(Pair(Col("knows_sales_frequency"), Col("knows_sales_frequencyc")), One(DUMMY),
      Metadata(None, ("En el negocio conoce: " + "Periodicidad de las " + "ventas de tus productos " +
        "o servicios (ej.: " + "diaria, semanal, " + "mensual)"), None, None)),
    Triple(Pair(Col("knows_detailed_income"), Col("knows_detailed_incomec")), One(DUMMY),
      Metadata(None, ("En el negocio conoce: " + "Ingresos del negocio de " + "manera detallada"), None, None)),
    Triple(Pair(Col("productcost_materials"), Col("productcost_materialsc")), One(DUMMY),
      Metadata(None, ("Para costo de producto " + "se calcula: Costo total " + "materiales directos"), None, None)),
    Triple(Pair(Col("productcost_handwork"), Col("productcost_handworkc")), One(DUMMY),
      Metadata(None, ("Para costo de producto " + "se calcula: Costo total " + "mano de obra directa"), None, None)),
    Triple(Pair(Col("productcost_fabrication"), Col("productcost_fabricationc")), One(DUMMY),
      Metadata(None, ("Para costo de producto " + "se calcula: Gastos " + "generales de fabricación"), None, None))]

  /** The section "Financiero". */
  const Flat5: seq<Triple> := [
    Triple(Pair(Col("sales2023q1s"), Col("sales2024q1s")), One(NUMERIC),
      Metadata(None, ("Ventas trimestrales, " + "2023T1-vs-2024T1"), None, None)),
    Triple(Pair(NoRef, Col("salesaverage2024")), One(NUMERIC),
      Metadata(None, ("Valor promedio mensual " + "de las ventas del 2024"), None, None)),
    Triple(Pair(NoRef, Col("participate_commercial")), One(BOOLEAN),
      Metadata(None, ("Participó en alguna " + "rueda comercial del " + "programa"), None, None)),
    Triple(Pair(NoRef, Col("connection_commercial")), One(BOOLEAN),
      Metadata(None, ("Generó conexiones " + "durante el desarrollo " + "de la rueda comercial"), None, None)),
    Triple(Pair(NoRef, Col("participate_financial")), One(BOOLEAN),
      Metadata(None, ("Participó en alguna " + "rueda financiera del " + "programa"), None, None)),
    Triple(Pair(NoRef, Col("connection_financial")), One(BOOLEAN),
      Metadata(None, ("Generó conexiones " + "durante el desarrollo " + "de la rueda financiera"), None, None)),
    Triple(Pair(Col("banked"), Col("bankedc")), One(BOOLEAN),
      Metadata(None, "Tiene cuenta bancaria", None, None)),
    Triple(Pair(Col("bookkeeping"), Col("bookkeepingc")), One(CATEGORICAL),
      Metadata(None, ("Forma de llevar las " + "cuentas del negocio"), Some(BookkeepingCategories), None))]

  /** The section "Asociatividad". */
  const Flat6: seq<Triple> := [
    Triple(Pair(Col("knows_associationways"), Col("knows_associationwaysc")), One(BOOLEAN),
      Metadata(None, ("El líder del negocio " + "conoce cómo establecer " + "y formalizar los " +
        "diferentes mecanismos " + "de asociatividad " + "empresarial"), None, None)),
    Triple(Pair(Col("association_group_training"), Col("association_group_trainingc")), One(DUMMY),
      Metadata(None, ("Se ha asociado para " + "realizar: Sí, para " + "tomar capacitaciones " +
        "grupales"), None, None)),
    Triple(Pair(Col("association_new_machinery"), Col("association_new_machineryc")), One(DUMMY),
      Metadata(None, ("Se ha asociado para " + "realizar: Sí, para " + "adquirir maquinaria y " +
        "equipos modernos"), None, None)),
    Triple(Pair(Col("association_buy_supplies"), Col("association_buy_suppliesc")), One(DUMMY),
      Metadata(None, ("Se ha asociado para " + "realizar: Sí, para " + "comprar insumos y así " +
        "reducir costos"), None, None)),
    Triple(Pair(Col("association_use_machinery_nobuy"), Col("association_use_machinery_nobuyc")), One(DUMMY),
      Metadata(None, ("Se ha asociado para " + "realizar: Sí, para " + "utilizar maquinaria sin " +
        "tener que comprarla"), None, None)),
    Triple(Pair(Col("association_new_markets"), Col("association_new_marketsc")), One(DUMMY),
      Metadata(None, ("Se ha asociado para " + "realizar: Sí, para " + "acceder a nuevos " +
        "mercados"), None, None)),
    Triple(Pair(Col("association_distribution"), Col("association_distributionc")), One(DUMMY),
      Metadata(None, ("Se ha asociado para " + "realizar: Sí, para " + "procesos logísticos y " +
        "de distribución"), None, None)),
    Triple(Pair(Col("association_have_not"), Col("association_have_notc")), One(DUMMY),
      Metadata(None, ("Se ha asociado para " + "realizar: No me he " + "asociado"), None, None))]

  /** The static configuration: section titles with their declarations, in order. */
  const FlatConfig: seq<(string, seq<Triple>)> := [
    ("Optimización operativa", Flat1),
    ("Mayor Calidad del Producto", Flat2),
    ("Talento Humano", Flat3),
    ("Practicas Gerenciales", Flat4),
    ("Financiero", Flat5),
    ("Asociatividad", Flat6)]

  /** A triple as the flat configuration writes it. */
  predicate FlatShape(t: Triple)
  {
    && t.pair.final.Col?
    && !t.pair.initial.Ratio?
    && t.types.One?
    && t.metadata.name.None?
    && t.metadata.calculation.None?
    && (t.types.name == CATEGORICAL <==> t.metadata.mapping.Some?)
    && (t.metadata.mapping.Some? ==> |t.metadata.mapping.value| > 0)
  }

  predicate SectionFlatShape(ts: seq<Triple>)
  {
    forall j :: 0 <= j < |ts| ==> FlatShape(ts[j])
  }

  lemma Flat1Shape() ensures SectionFlatShape(Flat1) {}
  lemma Flat2Shape() ensures SectionFlatShape(Flat2) {}
  lemma Flat3Shape() ensures SectionFlatShape(Flat3) {}
  lemma Flat4Shape() ensures SectionFlatShape(Flat4) {}
  lemma Flat5Shape() ensures SectionFlatShape(Flat5) {}
  lemma Flat6Shape() ensures SectionFlatShape(Flat6) {}

  /**
   * Six sections with distinct titles; every final reference is one column, only categorical
   * declarations carry a (non-empty) mapping, and no metadata carries a name or a calculation.
   */
  lemma FlatConfigShape()
    ensures |FlatConfig| == 6
    ensures forall i, j :: 0 <= i < j < |FlatConfig| ==> FlatConfig[i].0 != FlatConfig[j].0
    ensures forall i :: 0 <= i < |FlatConfig| ==> SectionFlatShape(FlatConfig[i].1)
  {
    Flat1Shape(); Flat2Shape(); Flat3Shape();
    Flat4Shape(); Flat5Shape(); Flat6Shape();
  }

  /** The base names of the five production variables. */
  const ProductionBases: seq<string> := [
    "producedunits_prevmonth", "targetunits_prevmonth", "defectiveunits_prevmonth",
    "estimated_prod_time", "actual_avg_prod_time"]

  /**
   * The first five declarations are numeric, with the four previous months of a production
   * quantity as baseline and its close column, the base name followed by 'c', as final value.
   */
  lemma ProductionDeclarations()
    ensures |Flat1| >= |ProductionBases|
    ensures forall j :: 0 <= j < |ProductionBases| ==>
      && Flat1[j].types == One(NUMERIC)
      && Flat1[j].pair.initial == Cols(GeneratePrevmonthVars(ProductionBases[j]))
      && |Flat1[j].pair.initial.names| == 4
      && Flat1[j].pair.final == Col(ProductionBases[j] + "c")
  {
  }

  /** Exactly the five Financiero declarations after the first have no baseline column. */
  lemma FinalOnlyDeclarations()
    ensures FlatConfig[4].0 == "Financiero"
    ensures forall i, j :: 0 <= i < |FlatConfig| && 0 <= j < |FlatConfig[i].1| ==>
      (FlatConfig[i].1[j].pair.initial == NoRef <==> i == 4 && 1 <= j <= 5)
  {
  }
}
