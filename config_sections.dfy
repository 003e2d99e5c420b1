/**
 * The nested sections configuration: which columns each report variable may be read from,
 * with dynamic column lists found by a name pattern such as `producedunits_{}`.
 */
module ConfigSections {
  import opened Wrappers
  import opened Text
  import opened Order
  import opened Declarations

  /** The `prefix` and `suffix` around the single `{}` of a name pattern. */
  function Affixes(pattern: string): (r: Result<(string, string)>)
    ensures r.Ok? <==> |Split(pattern, "{}")| == 2
    ensures r.Err? ==> r.error == BadPlaceholder
    ensures r.Ok? ==> pattern == r.value.0 + "{}" + r.value.1
  {
    var parts := Split(pattern, "{}");
    if |parts| != 2 then Err(BadPlaceholder)
    else
      JoinSplit(pattern, "{}");
      assert Join(parts, "{}") == parts[0] + "{}" + parts[1];
      Ok((parts[0], parts[1]))
  }

  lemma {:induction false} SplitOfFree(s: string, sep: string)
    requires |sep| > 0 && sep[0] !in s
    ensures Split(s, sep) == [s]
    decreases |s|
  {
    if |s| >= |sep| {
      assert s[..|sep|][0] == s[0];
      SplitOfFree(s[1..], sep);
      assert [s[0]] + s[1..] == s;
    }
  }

  lemma {:induction false} SplitAfterFree(p: string, rest: string, sep: string)
    requires |sep| > 0 && sep[0] !in p
    ensures Split(p + rest, sep) == [p + Split(rest, sep)[0]] + Split(rest, sep)[1..]
    decreases |p|
  {
    if |p| == 0 {
      assert p + rest == rest;
      assert p + Split(rest, sep)[0] == Split(rest, sep)[0];
      assert Split(rest, sep) == [Split(rest, sep)[0]] + Split(rest, sep)[1..];
    } else {
      var s := p + rest;
      if |s| < |sep| {
        assert |rest| < |sep|;
      } else {
        assert s[..|sep|][0] == p[0];
        assert s[1..] == p[1..] + rest;
        SplitAfterFree(p[1..], rest, sep);
        assert [p[0]] + (p[1..] + Split(rest, sep)[0]) == p + Split(rest, sep)[0];
      }
    }
  }

  /** A pattern written as `prefix + "{}" + suffix`, with no `{` on either side, splits back into its affixes. */
  lemma PlaceholderSplit(prefix: string, suffix: string)
    requires '{' !in prefix && '{' !in suffix
    ensures Affixes(prefix + "{}" + suffix) == Ok((prefix, suffix))
  {
    var sep := "{}";
    SplitOfFree(suffix, sep);
    assert (sep + suffix)[..|sep|] == sep;
    assert (sep + suffix)[|sep|..] == suffix;
    assert Split(sep + suffix, sep) == [""] + [suffix];
    assert prefix + sep + suffix == prefix + (sep + suffix);
    SplitAfterFree(prefix, sep + suffix, sep);
    assert prefix + "" == prefix;
  }

  /**
   * The text `^prefix.*suffix` followed by `c` (`control`) or by a character other than `c`
   * matches up to the end of the column name: `.*` covers no newline.
   */
  predicate Matches(col: string, prefix: string, suffix: string, control: bool)
  {
    |col| >= |prefix| + |suffix| + 1
    && col[..|prefix|] == prefix
    && col[|col| - 1 - |suffix|..|col| - 1] == suffix
    && (forall k :: |prefix| <= k < |col| - 1 - |suffix| ==> col[k] != '\n')
    && (if control then col[|col| - 1] == 'c' else col[|col| - 1] != 'c')
  }

  /**
   * `re.match` of the same regular expression as the code builds it: its closing `$` also
   * matches just before a final newline.
   */
  predicate MatchesAsWritten(col: string, prefix: string, suffix: string, control: bool)
  {
    Matches(col, prefix, suffix, control)
    || (|col| > 0 && col[|col| - 1] == '\n' && Matches(col[..|col| - 1], prefix, suffix, control))
  }

  /** A column name ending in `c` and a newline belongs to both families of the code as written. */
  lemma TrailingNewlineInBothFamilies()
    ensures MatchesAsWritten("xc\n", "x", "", true)
    ensures MatchesAsWritten("xc\n", "x", "", false)
    ensures !Matches("xc\n", "x", "", true)
  {
    var col := "xc\n";
    assert col[..|col| - 1] == "xc";
    assert Matches("xc", "x", "", true) by {
      assert "xc"[..1] == "x";
      assert "xc"[1..1] == "";
    }
    assert Matches(col, "x", "", false) by {
      assert col[..1] == "x";
      assert col[2..2] == "";
      assert col[1] == 'c';
    }
  }

  /** Names with the same last character agree on both readings unless that character is a newline. */
  lemma AsWrittenAgreesWithoutNewline(col: string, prefix: string, suffix: string, control: bool)
    requires |col| == 0 || col[|col| - 1] != '\n'
    ensures MatchesAsWritten(col, prefix, suffix, control) <==> Matches(col, prefix, suffix, control)
  {
  }

  /** The two families are disjoint: no name ends both in `c` and in something else. */
  lemma FamiliesDisjoint(col: string, prefix: string, suffix: string)
    ensures !(Matches(col, prefix, suffix, true) && Matches(col, prefix, suffix, false))
  {
  }

  /** `[col for col in columns if <match>]`: the matching names, in order and with repeats. */
  function Matching(columns: seq<string>, prefix: string, suffix: string, control: bool): (r: seq<string>)
    ensures forall c :: multiset(r)[c] == (if Matches(c, prefix, suffix, control) then multiset(columns)[c] else 0)
    decreases |columns|
  {
    if |columns| == 0 then []
    else
      var last := columns[|columns| - 1];
      var rest := Matching(columns[..|columns| - 1], prefix, suffix, control);
      assert columns == columns[..|columns| - 1] + [last];
      if Matches(last, prefix, suffix, control) then rest + [last] else rest
  }

  /**
   * `find_matching_vars`: the sorted names among `columns` that start with the pattern's
   * prefix, continue with its suffix and end in `c` exactly when `control` is set.
   */
  function FindMatchingVars(pattern: string, columns: seq<string>, control: bool): (r: Result<seq<string>>)
    ensures r.Err? <==> Affixes(pattern).Err?
    ensures r.Err? ==> r.error == BadPlaceholder
    ensures r.Ok? ==> Sorted(r.value)
    ensures r.Ok? ==> forall c :: (multiset(r.value)[c] ==
      if Matches(c, Affixes(pattern).value.0, Affixes(pattern).value.1, control) then multiset(columns)[c] else 0)
    ensures r.Ok? ==> forall c :: c in r.value ==>
      (c in columns && StartsWith(c, Affixes(pattern).value.0) && |c| > 0 && (c[|c| - 1] == 'c' <==> control))
    ensures r.Ok? && Affixes(pattern).value.1 == "" ==> Affixes(pattern).value.0 !in r.value
  {
    var (prefix, suffix) :- Affixes(pattern);
    var r := Sort(Matching(columns, prefix, suffix, control));
    assert forall c :: c in r ==> multiset(r)[c] > 0;
    Ok(r)
  }

  /** The result depends only on which names the table has, not on the order of its columns. */
  lemma FindMatchingVarsIgnoresOrder(pattern: string, a: seq<string>, b: seq<string>, control: bool)
    requires multiset(a) == multiset(b)
    ensures FindMatchingVars(pattern, a, control) == FindMatchingVars(pattern, b, control)
  {
    var ra := FindMatchingVars(pattern, a, control);
    var rb := FindMatchingVars(pattern, b, control);
    if ra.Ok? {
      forall c ensures multiset(ra.value)[c] == multiset(rb.value)[c] {
      }
      assert multiset(ra.value) == multiset(rb.value);
      SortedUnique(ra.value, rb.value);
    }
  }

  /** The control and the intervention lists of one pattern never share a name. */
  lemma ControlListsDisjoint(pattern: string, columns: seq<string>)
    requires Affixes(pattern).Ok?
    ensures forall c :: c in FindMatchingVars(pattern, columns, true).value ==> c !in FindMatchingVars(pattern, columns, false).value
  {
  }

  /** The three month patterns of the production indicators each hold one placeholder. */
  lemma ProductionPatterns()
    ensures Affixes("producedunits_{}") == Ok(("producedunits_", ""))
    ensures Affixes("targetunits_{}") == Ok(("targetunits_", ""))
    ensures Affixes("defectiveunits_{}") == Ok(("defectiveunits_", ""))
  {
    PlaceholderSplit("producedunits_", "");
    PlaceholderSplit("targetunits_", "");
    PlaceholderSplit("defectiveunits_", "");
    assert "producedunits_" + "{}" + "" == "producedunits_{}";
    assert "targetunits_" + "{}" + "" == "targetunits_{}";
    assert "defectiveunits_" + "{}" + "" == "defectiveunits_{}";
  }

  /** The month lists of the two production indicators, intervention and control. */
  datatype MonthColumns = MonthColumns(
    producedUnits: seq<string>, targetUnits: seq<string>, defectiveUnits: seq<string>,
    producedUnitsControl: seq<string>, targetUnitsControl: seq<string>, defectiveUnitsControl: seq<string>)

  /** The `find_matching_vars` calls of the configuration; none of them raises. */
  function MonthColumnsOf(columns: seq<string>): (m: MonthColumns)
    ensures FindMatchingVars("producedunits_{}", columns, false) == Ok(m.producedUnits)
    ensures FindMatchingVars("targetunits_{}", columns, false) == Ok(m.targetUnits)
    ensures FindMatchingVars("defectiveunits_{}", columns, false) == Ok(m.defectiveUnits)
    ensures FindMatchingVars("producedunits_{}", columns, true) == Ok(m.producedUnitsControl)
    ensures FindMatchingVars("targetunits_{}", columns, true) == Ok(m.targetUnitsControl)
    ensures FindMatchingVars("defectiveunits_{}", columns, true) == Ok(m.defectiveUnitsControl)
  {
    ProductionPatterns();
    MonthColumns(
      FindMatchingVars("producedunits_{}", columns, false).value,
      FindMatchingVars("targetunits_{}", columns, false).value,
      FindMatchingVars("defectiveunits_{}", columns, false).value,
      FindMatchingVars("producedunits_{}", columns, true).value,
      FindMatchingVars("targetunits_{}", columns, true).value,
      FindMatchingVars("defectiveunits_{}", columns, true).value)
  }

  /**
   * `get_sections_config`: the six report sections in order, the production indicators
   * reading the month columns found among `columns`.
   */
  function GetSectionsConfig(columns: seq<string>): seq<SectionDecl>
  {
    Sections(MonthColumnsOf(columns))
  }

  /** The six sections in order, given the month lists of the production indicators. */
  function Sections(m: MonthColumns): seq<SectionDecl>
  {
    [Section1(m), Section2, Section3, Section4, Section5, Section6]
  }

  // The literal below follows the source dictionary entry by entry. Long texts are written as
  // concatenations of short pieces; the text is the same.

  const ObservProductionplantCategories: seq<string> := [
      "Hay congestión por " + "deficiente utilización " + "de espacio.",
      "Hay suficiente espacio " + "para manipular los " + "productos, materias " +
        "primas e insumos."]

  const InventControlCategories: seq<string> := [
      "No realiza inventario",
      "Realiza inventario de " + "manera ocasional y sin " + "medir la exactitud",
      "Realiza inventario " + "constantemente y la " + "exactitud de medición " +
        "es mayor al 80%"]

  const NewideasDatasheetCategories: seq<string> := [
      "No, el proceso se hace " + "de manera verbal.",
      "Se toma como referencia " + "la muestra física y se " + "modifica.",
      "La unidad productiva ya " + "cuenta con formatos que " +
        "permitan registrar los " + "nuevos diseños y " + "cambios en los " +
        "existentes."]

  const PackagingCategories: seq<string> := [
      "El empaque del producto " + "no tiene marca, sino " + "que se utilizan " +
        "elementos genéricos " + "como bolsas, plásticos " + "o cartones de calidad " +
        "comercial.",
      "El producto posee un " + "empaque estándar que " + "tiene como única " +
        "función la protección " + "de la mercancía y los " + "datos del fabricante.",
      "La unidad productiva " + "posee un empaque que " + "exalta los valores de " +
        "la marca y busca " + "distinguirse en las " + "exhibiciones ó incluso " +
        "el deseo de ser " + "conservado por el " + "Cliente para su " + "recordación."]

  const PriceSystemCategories: seq<string> := [
      "Ninguno - No se ha " + "definido un mecanismo " + "de fijación de precios",
      "Los precios de mercado " + "de los competidores",
      "Los costos y gastos del " + "negocio",
      "Los costos, gastos y " + "porcentaje de ganancia " + "de cada producto"]

  const BookkeepingCategories: seq<string> := [
      "A mano",
      "Excel",
      "Libro contable",
      "Software contable"]

  /** The categories of each categorical question, in the order the interpretation lists them. */
  const CategoricalMappings: map<string, seq<string>> := map[
      "observ_productionplant" := ObservProductionplantCategories,
      "invent_control" := InventControlCategories,
      "newideas_datasheet" := NewideasDatasheetCategories,
      "packaging" := PackagingCategories,
      "price_system" := PriceSystemCategories,
      "bookkeeping" := BookkeepingCategories
    ]

  /** The declaration "production_efficiency", reading the month columns `m`. */
  function ProductionEfficiency(m: MonthColumns): VarDecl
  {
    VarDecl(
      [Pair(Ratio(Cols(m.producedUnits), Cols(m.targetUnits)), Ratio(Cols(m.producedUnitsControl), Cols(m.targetUnitsControl)))],
      One(INDICATOR),
      Metadata(Some("production_efficiency"),
        "Eficiencia de producción",
        None,
        Some("El ratio de eficiencia " + "de producción es el " + "ratio entre el número " +
          "de unidades producidas " + "y el número de unidades " + "objetivo.")))
  }

  const KnowsStandardtime: VarDecl :=
    VarDecl(
      [Pair(Col("knows_standardtime"), Col("standard_timec")), Pair(Col("knows_standardtime"), Col("knows_standardtimec"))],
      One(BOOLEAN),
      Metadata(Some("knows_standardtime"),
        ("Conoce el tiempo " + "estándar de producción"),
        None,
        None))

  /** The declaration "defective_units_rate", reading the month columns `m`. */
  function DefectiveUnitsRate(m: MonthColumns): VarDecl
  {
    VarDecl(
      [Pair(Ratio(Cols(m.defectiveUnits), Cols(m.producedUnits)), Ratio(Cols(m.defectiveUnitsControl), Cols(m.producedUnitsControl)))],
      One(INDICATOR),
      Metadata(Some("defective_units_rate"),
        "Tasa de Unidades defectuosas",
        None,
        Some("La tasa de unidades " + "defectuosas es el ratio " + "entre el número de " +
          "unidades defectuosas y " + "el número total de " + "unidades producidas.")))
  }

  const ObservProductionplant: VarDecl :=
    VarDecl(
      [Pair(Col("observ_productionplant"), Col("observ_productionplantc"))],
      One(CATEGORICAL),
      Metadata(Some("observ_productionplant"),
        ("Estado de la " + "distribución del espacio"),
        Some(ObservProductionplantCategories),
        None))

  const InventControl: VarDecl :=
    VarDecl(
      [Pair(Col("invent_control"), Col("invent_controlc"))],
      One(CATEGORICAL),
      Metadata(Some("invent_control"),
        ("Realiza control de " + "inventario"),
        Some(InventControlCategories),
        None))

  const Knowsinput: VarDecl :=
    VarDecl(
      [Pair(Col("knowsinput"), Col("knowsinputc"))],
      One(BOOLEAN),
      Metadata(Some("knowsinput"),
        ("Conoce niveles óptimos " + "de inventario"),
        None,
        None))

  const IndicadoresEficiencia: VarDecl :=
    VarDecl(
      [Pair(Col("indicadores_eficiencia"), Col("indicadores_eficienciac"))],
      Many([DUMMY, BOOLEAN]),
      Metadata(Some("indicadores_eficiencia"),
        ("Tiene indicadores de " + "eficiencia"),
        None,
        None))

  const IndicadoresProductividad: VarDecl :=
    VarDecl(
      [Pair(Col("indicadores_productividad"), Col("indicadores_productividadc"))],
      Many([DUMMY, BOOLEAN]),
      Metadata(Some("indicadores_productividad"),
        ("Tiene indicadores de " + "productividad"),
        None,
        None))

  const Index: VarDecl :=
    VarDecl(
      [Pair(Col("index"), Col("hasindicatorsc"))],
      Many([DUMMY, BOOLEAN]),
      Metadata(Some("index"),
        "Tiene indicadores generales",
        None,
        None))

  /** The section "Optimización operativa". */
  function Section1(m: MonthColumns): SectionDecl
  {
    SectionDecl("Optimización operativa", [
      ("production_efficiency", ProductionEfficiency(m)),
      ("knows_standardtime", KnowsStandardtime),
      ("defective_units_rate", DefectiveUnitsRate(m)),
      ("observ_productionplant", ObservProductionplant),
      ("invent_control", InventControl),
      ("knowsinput", Knowsinput),
      ("indicadores_eficiencia", IndicadoresEficiencia),
      ("indicadores_productividad", IndicadoresProductividad),
      ("index", Index)])
  }

  /** The section "Mayor Calidad del Producto". */
  const Section2: SectionDecl :=
    SectionDecl("Mayor Calidad del Producto", [
      ("qualityprocess_sample", VarDecl(
        [Pair(Col("qualityprocess_sample"), Col("qualityprocess_samplec"))],
        One(DUMMY),
        Metadata(Some("qualityprocess_sample"),
          ("Para garantizar la " + "calidad de los " + "productos: Realiza " +
            "muestra y contramuestra"),
          None,
          None))),
      ("qualityprocess_set_machinery", VarDecl(
        [Pair(Col("qualityprocess_set_machinery"), Col("qualityprocess_set_machineryc"))],
        One(DUMMY),
        Metadata(Some("qualityprocess_set_machinery"),
          ("Para garantizar la " + "calidad de los " + "productos: Realiza " +
            "preparación de máquinas"),
          None,
          None))),
      ("qualityprocess_control_quality", VarDecl(
        [Pair(Col("qualityprocess_control_quality"), Col("qualityprocess_control_qualityc"))],
        One(DUMMY),
        Metadata(Some("qualityprocess_control_quality"),
          ("Para garantizar la " + "calidad de los " + "productos: Tiene " +
            "controles de calidad"),
          None,
          None))),
      ("qualityprocess_none", VarDecl(
        [Pair(Col("qualityprocess_none"), Col("qualityprocess_nonec"))],
        One(DUMMY),
        Metadata(Some("qualityprocess_none"),
          ("Para garantizar la " + "calidad de los " + "productos: No tiene " +
            "procesos de calidad"),
          None,
          None))),
      ("newideas_datasheet", VarDecl(
        [Pair(Col("newideas_datasheet"), Col("newideas_designc"))],
        One(CATEGORICAL),
        Metadata(Some("newideas_datasheet"),
          ("Las ideas de los nuevos " + "diseños se registran en " + "una ficha técnica"),
          Some(NewideasDatasheetCategories),
          None))),
      ("packaging", VarDecl(
        [Pair(Col("packaging"), Col("packagingc"))],
        One(CATEGORICAL),
        Metadata(Some("packaging"),
          ("Cómo funciona en " + "general el empaque en " + "el negocio"),
          Some(PackagingCategories),
          None))),
      ("software_design", VarDecl(
        [Pair(Col("software_design"), Col("software_designc"))],
        One(BOOLEAN),
        Metadata(Some("software_design"),
          ("El negocio utiliza " + "algún software " + "especializado para el " +
            "diseño de sus productos"),
          None,
          None))),
      ("patterns_digitized", VarDecl(
        [Pair(Col("patterns_digitized"), Col("digital_patternc"))],
        One(BOOLEAN),
        Metadata(Some("patterns_digitized"),
          ("Los patrones están " + "digitalizados"),
          None,
          None))),
      ("patterns_prevcollections", VarDecl(
        [Pair(Col("patterns_prevcollections"), Col("prev_patternc"))],
        One(BOOLEAN),
        Metadata(Some("patterns_prevcollections"),
          ("El negocio usualmente " + "guarda los patrones de " + "colecciones anteriores"),
          None,
          None)))])

  /** The section "Talento Humano". */
  const Section3: SectionDecl :=
    SectionDecl("Talento Humano", [
      ("emp_ft", VarDecl(
        [Pair(Col("emp_ft"), Col("emp_ftc"))],
        One(NUMERIC),
        Metadata(Some("emp_ft"),
          ("Empleados de nómina " + "(afiliados por el " + "negocio al sistema de " +
            "salud y pensión)"),
          None,
          None))),
      ("emp_total", VarDecl(
        [Pair(Col("emp_total"), Col("emp_totalc"))],
        One(NUMERIC),
        Metadata(Some("emp_total"),
          "Empleados totales",
          None,
          None))),
      ("hassalary", VarDecl(
        [Pair(Col("hassalary"), Col("hassalaryc"))],
        One(BOOLEAN),
        Metadata(Some("hassalary"),
          ("Postulante recibe " + "sueldo fijo del negocio"),
          None,
          None))),
      ("income", VarDecl(
        [Pair(Col("income"), Col("incomec"))],
        One(NUMERIC),
        Metadata(Some("income"),
          ("Cuánto recibe de sueldo " + "fijo en un mes promedio"),
          None,
          None)))])

  /** The section "Practicas Gerenciales". */
  const Section4: SectionDecl :=
    SectionDecl("Practicas Gerenciales", [
      ("price_system", VarDecl(
        [Pair(Col("price_system"), Col("price_systemc"))],
        One(CATEGORICAL),
        Metadata(Some("price_system"),
          ("Los precios se fijan " + "con base en"),
          Some(PriceSystemCategories),
          None))),
      ("knows_production_cost", VarDecl(
        [Pair(Col("knows_production_cost"), Col("knows_production_costc"))],
        One(DUMMY),
        Metadata(Some("knows_production_cost"),
          ("En el negocio conoce: " + "El costo de producir " + "cada unidad de producto " +
            "o servicio"),
          None,
          None))),
      ("knows_max_production", VarDecl(
        [Pair(Col("knows_max_production"), Col("knows_max_productionc"))],
        One(DUMMY),
        Metadata(Some("knows_max_production"),
          ("En el negocio conoce: " + "Cantidad máxima de " + "productos que puedes " +
            "generar u ofrecer en un " + "periodo determinado " + "(por ejemplo: diaria, " +
            "semanal, mensual)"),
          None,
          None))),
      ("knows_profit_margin", VarDecl(
        [Pair(Col("knows_profit_margin"), Col("knows_profit_marginc"))],
        One(DUMMY),
        Metadata(Some("knows_profit_margin"),
          ("En el negocio conoce: " + "Porcentaje o margen de " + "ganancia de cada " +
            "producto o servicio"),
          None,
          None))),
      ("knows_sales_frequency", VarDecl(
        [Pair(Col("knows_sales_frequency"), Col("knows_sales_frequencyc"))],
        One(DUMMY),
        Metadata(Some("knows_sales_frequency"),
          ("En el negocio conoce: " + "Periodicidad de las " + "ventas de tus productos " +
            "o servicios (ej.: " + "diaria, semanal, " + "mensual)"),
          None,
          None))),
      ("knows_detailed_income", VarDecl(
        [Pair(Col("knows_detailed_income"), Col("knows_detailed_incomec"))],
        One(DUMMY),
        Metadata(Some("knows_detailed_income"),
          ("En el negocio conoce: " + "Ingresos del negocio de " + "manera detallada"),
          None,
          None))),
      ("productcost_materials", VarDecl(
        [Pair(Col("productcost_materials"), Col("productcost_materialsc"))],
        One(DUMMY),
        Metadata(Some("productcost_materials"),
          ("Para costo de producto " + "se calcula: Costo total " + "materiales directos"),
          None,
          None))),
      ("productcost_handwork", VarDecl(
        [Pair(Col("productcost_handwork"), Col("productcost_handworkc"))],
        One(DUMMY),
        Metadata(Some("productcost_handwork"),
          ("Para costo de producto " + "se calcula: Costo total " + "mano de obra directa"),
          None,
          None))),
      ("productcost_fabrication", VarDecl(
        [Pair(Col("productcost_fabrication"), Col("productcost_fabricationc"))],
        One(DUMMY),
        Metadata(Some("productcost_fabrication"),
          ("Para costo de producto " + "se calcula: Gastos " + "generales de fabricación"),
          None,
          None)))])

  /** The section "Financiero". */
  const Section5: SectionDecl :=
    SectionDecl("Financiero", [
      ("sales2023q1s", VarDecl(
        [Pair(Col("sales2023q1s"), Col("sales2024q1s"))],
        One(NUMERIC),
        Metadata(Some("sales2023q1s"),
          ("Ventas trimestrales, " + "2023T1-vs-2024T1"),
          None,
          None))),
      ("salesaverage2024", VarDecl(
        [Pair(NoRef, Col("salesaverage2024"))],
        One(NUMERIC),
        Metadata(Some("salesaverage2024"),
          ("Valor promedio mensual " + "de las ventas del 2024"),
          None,
          None))),
      ("participate_commercial", VarDecl(
        [Pair(NoRef, Col("participate_commercial"))],
        One(BOOLEAN),
        Metadata(Some("participate_commercial"),
          ("Participó en alguna " + "rueda comercial del " + "programa"),
          None,
          None))),
      ("connection_commercial", VarDecl(
        [Pair(NoRef, Col("connection_commercial"))],
        One(BOOLEAN),
        Metadata(Some("connection_commercial"),
          ("Generó conexiones " + "durante el desarrollo " + "de la rueda comercial"),
          None,
          None))),
      ("participate_financial", VarDecl(
        [Pair(NoRef, Col("participate_financial"))],
        One(BOOLEAN),
        Metadata(Some("participate_financial"),
          ("Participó en alguna " + "rueda financiera del " + "programa"),
          None,
          None))),
      ("connection_financial", VarDecl(
        [Pair(NoRef, Col("connection_financial"))],
        One(BOOLEAN),
        Metadata(Some("connection_financial"),
          ("Generó conexiones " + "durante el desarrollo " + "de la rueda financiera"),
          None,
          None))),
      ("banked", VarDecl(
        [Pair(Col("banked"), Col("bankedc"))],
        One(BOOLEAN),
        Metadata(Some("banked"),
          "Tiene cuenta bancaria",
          None,
          None))),
      ("bookkeeping", VarDecl(
        [Pair(Col("bookkeeping"), Col("bookkeepingc"))],
        One(CATEGORICAL),
        Metadata(Some("bookkeeping"),
          ("Forma de llevar las " + "cuentas del negocio"),
          Some(BookkeepingCategories),
          None)))])

  /** The section "Asociatividad". */
  const Section6: SectionDecl :=
    SectionDecl("Asociatividad", [
      ("knows_associationways", VarDecl(
        [Pair(Col("knows_associationways"), Col("knows_associationwaysc"))],
        One(BOOLEAN),
        Metadata(Some("knows_associationways"),
          ("El líder del negocio " + "conoce cómo establecer " + "y formalizar los " +
            "diferentes mecanismos " + "de asociatividad " + "empresarial"),
          None,
          None))),
      ("association_group_training", VarDecl(
        [Pair(Col("association_group_training"), Col("association_group_trainingc"))],
        One(DUMMY),
        Metadata(Some("association_group_training"),
          ("Se ha asociado para " + "realizar: Sí, para " + "tomar capacitaciones " +
            "grupales"),
          None,
          None))),
      ("association_new_machinery", VarDecl(
        [Pair(Col("association_new_machinery"), Col("association_new_machineryc"))],
        One(DUMMY),
        Metadata(Some("association_new_machinery"),
          ("Se ha asociado para " + "realizar: Sí, para " + "adquirir maquinaria y " +
            "equipos modernos"),
          None,
          None))),
      ("association_buy_supplies", VarDecl(
        [Pair(Col("association_buy_supplies"), Col("association_buy_suppliesc"))],
        One(DUMMY),
        Metadata(Some("association_buy_supplies"),
          ("Se ha asociado para " + "realizar: Sí, para " + "comprar insumos y así " +
            "reducir costos"),
          None,
          None))),
      ("association_use_machinery_nobuy", VarDecl(
        [Pair(Col("association_use_machinery_nobuy"), Col("association_use_machinery_nobuyc"))],
        One(DUMMY),
        Metadata(Some("association_use_machinery_nobuy"),
          ("Se ha asociado para " + "realizar: Sí, para " + "utilizar maquinaria sin " +
            "tener que comprarla"),
          None,
          None))),
      ("association_new_markets", VarDecl(
        [Pair(Col("association_new_markets"), Col("association_new_marketsc"))],
        One(DUMMY),
        Metadata(Some("association_new_markets"),
          ("Se ha asociado para " + "realizar: Sí, para " + "acceder a nuevos " +
            "mercados"),
          None,
          None))),
      ("association_distribution", VarDecl(
        [Pair(Col("association_distribution"), Col("association_distributionc"))],
        One(DUMMY),
        Metadata(Some("association_distribution"),
          ("Se ha asociado para " + "realizar: Sí, para " + "procesos logísticos y " +
            "de distribución"),
          None,
          None))),
      ("association_have_not", VarDecl(
        [Pair(Col("association_have_not"), Col("association_have_notc"))],
        One(DUMMY),
        Metadata(Some("association_have_not"),
          ("Se ha asociado para " + "realizar: No me he " + "asociado"),
          None,
          None)))])

  /**
   * What a declaration of the configuration promises: `metadata["name"]` is its own key, a
   * declaration that may be read as categorical carries a non-empty category list, and an
   * indicator carries a `calculation` text and lists numerator and denominator columns on both sides.
   */
  predicate WellDeclared(key: string, d: VarDecl)
  {
    d.metadata.name == Some(key)
    && (CATEGORICAL in TypeList(d.types) ==> d.metadata.mapping.Some? && |d.metadata.mapping.value| > 0)
    && (INDICATOR in TypeList(d.types) ==>
          d.metadata.calculation.Some? && forall p :: p in d.pairs ==> ListRatio(p.initial) && ListRatio(p.final))
  }

  /** An indicator side `(numerators, denominators)` given as two lists of column names. */
  predicate ListRatio(r: Ref)
  {
    r.Ratio? && r.nums.Cols? && r.dens.Cols?
  }

  /** Every declaration of the section is well declared. */
  predicate SectionWellDeclared(s: SectionDecl)
  {
    forall j :: 0 <= j < |s.vars| ==> WellDeclared(s.vars[j].0, s.vars[j].1)
  }

  lemma Section1WellDeclared(m: MonthColumns)
    ensures SectionWellDeclared(Section1(m))
  {
  }

  lemma Section2WellDeclared()
    ensures SectionWellDeclared(Section2)
  {
  }

  lemma Section3WellDeclared()
    ensures SectionWellDeclared(Section3)
  {
  }

  lemma Section4WellDeclared()
    ensures SectionWellDeclared(Section4)
  {
  }

  lemma Section5WellDeclared()
    ensures SectionWellDeclared(Section5)
  {
  }

  lemma Section6WellDeclared()
    ensures SectionWellDeclared(Section6)
  {
  }

  /** Every section of the configuration is well declared, and no two sections share a title. */
  lemma ConfigWellDeclared(m: MonthColumns)
    ensures |Sections(m)| == 6
    ensures forall i :: 0 <= i < |Sections(m)| ==> SectionWellDeclared(Sections(m)[i])
    ensures forall i, j :: 0 <= i < j < |Sections(m)| ==> Sections(m)[i].title != Sections(m)[j].title
  {
    Section1WellDeclared(m);
    Section2WellDeclared();
    Section3WellDeclared();
    Section4WellDeclared();
    Section5WellDeclared();
    Section6WellDeclared();
  }
}
