/** Contextual guidance: advice by phase and recommendations by number of
    open projects (sistema_90d/guia.py). */
module Guia {
  import opened Texto
  import Ciclos

  // ---------------------------------------------------------------------------
  // str.upper

  /** Python's `str.upper` for one character, as the list of characters it
      becomes: ASCII and Latin-1 letters, the dotless i, the long s and the
      Latin ligatures; every other character is kept. */
  function MayusculaDe(c: char): string {
    if 'a' <= c <= 'z' then [(c as int - 32) as char]
    else if '\U{00E0}' <= c <= '\U{00FE}' && c != '\U{00F7}' then [(c as int - 32) as char]
    else if c == '\U{00DF}' then "SS"
    else if c == '\U{00FF}' then "\U{0178}"
    else if c == '\U{00B5}' then "\U{039C}"
    else if c == '\U{0131}' then "I"
    else if c == '\U{017F}' then "S"
    else if c == '\U{FB00}' then "FF"
    else if c == '\U{FB01}' then "FI"
    else if c == '\U{FB02}' then "FL"
    else if c == '\U{FB03}' then "FFI"
    else if c == '\U{FB04}' then "FFL"
    else if c == '\U{FB05}' || c == '\U{FB06}' then "ST"
    else [c]
  }

  /** Every character `MayusculaDe` produces is already upper case. */
  lemma MayusculaDeFija(c: char)
    ensures forall i :: 0 <= i < |MayusculaDe(c)| ==> MayusculaDe(MayusculaDe(c)[i]) == [MayusculaDe(c)[i]]
  {
  }

  /** A string of upper-case characters is its own upper case. */
  lemma {:induction false} MayusculasFijas(s: string)
    requires forall i :: 0 <= i < |s| ==> MayusculaDe(s[i]) == [s[i]]
    ensures Mayusculas(s) == s
  {
    if |s| > 0 {
      MayusculasFijas(s[1..]);
      assert [s[0]] + s[1..] == s;
    }
  }

  /** `s.upper()`. */
  function Mayusculas(s: string): string {
    if |s| == 0 then "" else MayusculaDe(s[0]) + Mayusculas(s[1..])
  }

  /** When every character has a one-character upper case, `upper` works position by position. */
  lemma {:induction false} MayusculasPorPosicion(s: string, t: string)
    requires |s| == |t|
    requires forall i :: 0 <= i < |s| ==> MayusculaDe(s[i]) == [t[i]]
    ensures Mayusculas(s) == t
  {
    if |s| > 0 {
      MayusculasPorPosicion(s[1..], t[1..]);
      assert [t[0]] + t[1..] == t;
    }
  }

  lemma {:induction false} MayusculasConcat(a: string, b: string)
    ensures Mayusculas(a + b) == Mayusculas(a) + Mayusculas(b)
  {
    if |a| > 0 {
      assert (a + b)[0] == a[0] && (a + b)[1..] == a[1..] + b;
      MayusculasConcat(a[1..], b);
      calc {
        Mayusculas(a + b);
        MayusculaDe(a[0]) + Mayusculas(a[1..] + b);
        MayusculaDe(a[0]) + (Mayusculas(a[1..]) + Mayusculas(b));
        (MayusculaDe(a[0]) + Mayusculas(a[1..])) + Mayusculas(b);
      }
    } else {
      assert a + b == b;
    }
  }

  /** `upper` is idempotent. */
  lemma {:induction false} MayusculasIdempotente(s: string)
    ensures Mayusculas(Mayusculas(s)) == Mayusculas(s)
  {
    if |s| > 0 {
      MayusculasConcat(MayusculaDe(s[0]), Mayusculas(s[1..]));
      MayusculaDeFija(s[0]);
      MayusculasFijas(MayusculaDe(s[0]));
      MayusculasIdempotente(s[1..]);
    }
  }

  // ---------------------------------------------------------------------------
  // Advice by phase

  datatype Categoria = Ideacion | MvpValidacion | LanzamientoTraccion | EscaladoCierre

  // The advice of each category (CONSEJOS).
  const ConsejoIdeacion1: string := "No te enamores de la solución, enamórate del problema."
  const ConsejoIdeacion2: string := "Habla con al menos 5 clientes potenciales antes de escribir una línea de código."
  const ConsejoIdeacion3: string := "Define el umbral de éxito: ¿Qué número validaría tu idea en 7 días?"
  const ConsejoIdeacion4: string := "Si no puedes explicar tu idea en un tweet, es demasiado compleja."
  const ConsejoMvpValidacion1: string := "Si no te avergüenza tu primera versión, lanzaste demasiado tarde."
  const ConsejoMvpValidacion2: string := "Mide solo lo que importa: ¿Alguien está dispuesto a pagar/suscribirse?"
  const ConsejoMvpValidacion3: string := "No construyas automatizaciones hasta que lo hayas hecho 10 veces manual."
  const ConsejoMvpValidacion4: string := "El objetivo del MVP no es ganar dinero, es reducir la incertidumbre."
  const ConsejoLanzamientoTraccion1: string := "Céntrate en un solo canal de adquisición hasta que funcione."
  const ConsejoLanzamientoTraccion2: string := "Pide feedback brutalmente honesto, no busques cumplidos."
  const ConsejoLanzamientoTraccion3: string := "Observa lo que los usuarios HACEN, no lo que DICEN."
  const ConsejoLanzamientoTraccion4: string := "La retención es más importante que la adquisición en esta etapa."
  const ConsejoEscaladoCierre1: string := "Un 'Winner' se siente diferente: la demanda supera tu capacidad."
  const ConsejoEscaladoCierre2: string := "Si el ROI es bajo después de 3 pivotes, cárgalo (KILL) sin piedad."
  const ConsejoEscaladoCierre3: string := "Documenta tus aprendizajes de los proyectos fallidos; son tu activo más valioso."
  const ConsejoEscaladoCierre4: string := "Escalar un producto roto solo lo rompe más rápido."

  /** The four pieces of advice of each category. */
  function Consejos(c: Categoria): (r: seq<string>)
    ensures |r| == 4
  {
    match c
    case Ideacion => [ConsejoIdeacion1, ConsejoIdeacion2, ConsejoIdeacion3, ConsejoIdeacion4]
    case MvpValidacion => [ConsejoMvpValidacion1, ConsejoMvpValidacion2, ConsejoMvpValidacion3, ConsejoMvpValidacion4]
    case LanzamientoTraccion => [ConsejoLanzamientoTraccion1, ConsejoLanzamientoTraccion2, ConsejoLanzamientoTraccion3, ConsejoLanzamientoTraccion4]
    case EscaladoCierre => [ConsejoEscaladoCierre1, ConsejoEscaladoCierre2, ConsejoEscaladoCierre3, ConsejoEscaladoCierre4]
  }

  /** The advice category of a phase name, matched on its upper-cased form in a fixed order. */
  function CategoriaDe(faseNombre: string): Categoria {
    var f := Mayusculas(faseNombre);
    if Contains(f, "MVP") || Contains(f, "VALIDACIÓN") then MvpValidacion
    else if Contains(f, "LANZAMIENTO") || Contains(f, "TRACCIÓN") then LanzamientoTraccion
    else if Contains(f, "ESCALADO") || Contains(f, "CIERRE") || Contains(f, "OPTIMIZACIÓN") then EscaladoCierre
    else Ideacion
  }

  /** The category does not depend on letter case: a name and its upper-cased form agree. */
  lemma CategoriaSinMayusculas(faseNombre: string)
    ensures CategoriaDe(Mayusculas(faseNombre)) == CategoriaDe(faseNombre)
  {
    MayusculasIdempotente(faseNombre);
  }

  /** The checks run in order: a name mentioning MVP or VALIDACIÓN gets that
      category whatever else it mentions, and so on down the list. */
  lemma CategoriaPrioridad(faseNombre: string)
    ensures var f := Mayusculas(faseNombre);
            && (Contains(f, "MVP") ==> CategoriaDe(faseNombre) == MvpValidacion)
            && (CategoriaDe(faseNombre) == Ideacion <==>
                  !Contains(f, "MVP") && !Contains(f, "VALIDACIÓN") && !Contains(f, "LANZAMIENTO")
                  && !Contains(f, "TRACCIÓN") && !Contains(f, "ESCALADO") && !Contains(f, "CIERRE")
                  && !Contains(f, "OPTIMIZACIÓN"))
  {
  }

  /** `obtener_consejo_por_fase`: some advice of the selected category; which
      one is left open, as `random.choice` leaves it. */
  method ObtenerConsejoPorFase(faseNombre: string) returns (consejo: string)
    ensures consejo in Consejos(CategoriaDe(faseNombre))
  {
    var categoria := CategoriaDe(faseNombre);
    var consejos := Consejos(categoria);
    var i :| 0 <= i < |consejos|;
    consejo := consejos[i];
  }

  // ---------------------------------------------------------------------------
  // Contextual guide

  /** Projects not yet killed and not winners. */
  function ContarActivos(estados: seq<string>): (n: nat)
    ensures n <= |estados|
  {
    if |estados| == 0 then 0
    else (if estados[0] != "killed" && estados[0] != "winner" then 1 else 0) + ContarActivos(estados[1..])
  }

  lemma {:induction false} ContarActivosConcat(a: seq<string>, b: seq<string>)
    ensures ContarActivos(a + b) == ContarActivos(a) + ContarActivos(b)
  {
    if |a| > 0 {
      assert (a + b)[0] == a[0] && (a + b)[1..] == a[1..] + b;
      ContarActivosConcat(a[1..], b);
    } else {
      assert a + b == b;
    }
  }

  /** Only killed and winner projects are left out of the count. */
  lemma {:induction false} ContarActivosTodos(estados: seq<string>)
    ensures ContarActivos(estados) == |estados| <==>
              forall k :: 0 <= k < |estados| ==> estados[k] != "killed" && estados[k] != "winner"
  {
    if |estados| > 0 {
      ContarActivosTodos(estados[1..]);
      assert forall k :: 1 <= k < |estados| ==> estados[k] == estados[1..][k - 1];
    }
  }

  const DemasiadosProyectos: string := "⚠️ Tienes demasiados proyectos activos. Recomendación Marc Lou: Máximo 3 para enfocar energía."
  const DashboardVacio: string := "💡 Dashboard vacío. ¡Es hora de sembrar una nueva idea!"

  function Recomendaciones(n: nat): (r: seq<string>)
    ensures n > 3 <==> r == [DemasiadosProyectos]
    ensures n == 0 <==> r == [DashboardVacio]
    ensures 1 <= n <= 3 <==> r == []
  {
    if n > 3 then [DemasiadosProyectos] else if n == 0 then [DashboardVacio] else []
  }

  datatype GuiaContextual = GuiaContextual(consejo: string, faseNombre: string, recomendaciones: seq<string>, numActivos: nat)

  /** `obtener_guia_contextual`, given the projects' states and the phase name. */
  method ObtenerGuiaContextual(estados: seq<string>, faseNombre: string) returns (g: GuiaContextual)
    ensures g.numActivos == ContarActivos(estados)
    ensures g.consejo in Consejos(CategoriaDe(faseNombre))
    ensures g.faseNombre == faseNombre
    ensures g.recomendaciones == Recomendaciones(g.numActivos)
  {
    var n := ContarActivos(estados);
    var consejo := ObtenerConsejoPorFase(faseNombre);
    g := GuiaContextual(consejo, faseNombre, Recomendaciones(n), n);
  }

  /** `a` is never followed by `b` in `f`. */
  predicate SinPar(f: string, a: char, b: char) {
    forall i :: 0 <= i < |f| - 1 ==> !(f[i] == a && f[i + 1] == b)
  }

  /** `f` is `nombre` upper-cased one character at a time. */
  predicate UnoAUno(nombre: string, f: string) {
    |nombre| == |f| && forall i :: 0 <= i < |f| ==> MayusculaDe(nombre[i]) == [f[i]]
  }

  /** For each keyword, an adjacent pair of it that never occurs in `f`. */
  predicate SinClaves(f: string) {
    && SinPar(f, 'V', 'P') && SinPar(f, 'V', 'A') && SinPar(f, 'N', 'Z') && SinPar(f, 'C', 'C')
    && SinPar(f, 'S', 'C') && SinPar(f, 'R', 'R') && SinPar(f, 'I', 'Z')
  }

  /** A name whose upper-cased form lacks one adjacent pair of each keyword
      draws advice from IDEACIÓN. */
  lemma IdeacionSinClaves(nombre: string, f: string)
    requires UnoAUno(nombre, f) && SinClaves(f)
    ensures CategoriaDe(nombre) == Ideacion
  {
    MayusculasPorPosicion(nombre, f);
    SinClavesDeMvpNiLanzamiento(f);
    SinClavesDeEscalado(f);
  }

  /** The pairs "VP", "VA", "NZ" and "CC" rule out the first four keywords. */
  lemma SinClavesDeMvpNiLanzamiento(f: string)
    requires SinPar(f, 'V', 'P') && SinPar(f, 'V', 'A') && SinPar(f, 'N', 'Z') && SinPar(f, 'C', 'C')
    ensures !Contains(f, "MVP") && !Contains(f, "VALIDACIÓN") && !Contains(f, "LANZAMIENTO") && !Contains(f, "TRACCIÓN")
  {
    NoContienePorPar(f, "MVP", 1);
    NoContienePorPar(f, "VALIDACIÓN", 0);
    NoContienePorPar(f, "LANZAMIENTO", 2);
    NoContienePorPar(f, "TRACCIÓN", 3);
  }

  /** The pairs "SC", "RR" and "IZ" rule out the last three keywords. */
  lemma SinClavesDeEscalado(f: string)
    requires SinPar(f, 'S', 'C') && SinPar(f, 'R', 'R') && SinPar(f, 'I', 'Z')
    ensures !Contains(f, "ESCALADO") && !Contains(f, "CIERRE") && !Contains(f, "OPTIMIZACIÓN")
  {
    NoContienePorPar(f, "ESCALADO", 1);
    NoContienePorPar(f, "CIERRE", 3);
    NoContienePorPar(f, "OPTIMIZACIÓN", 5);
  }

  // The four phase names, one fact per lemma.
  lemma ExploracionUnoAUno() ensures UnoAUno("Exploración", "EXPLORACIÓN") {}
  lemma ExploracionSinClaves() ensures SinClaves("EXPLORACIÓN") {}
  lemma ExperimentacionUnoAUno() ensures UnoAUno("Experimentación", "EXPERIMENTACIÓN") {}
  lemma ExperimentacionSinClaves() ensures SinClaves("EXPERIMENTACIÓN") {}
  lemma DecisionUnoAUno() ensures UnoAUno("Decisión", "DECISIÓN") {}
  lemma DecisionSinClaves() ensures SinClaves("DECISIÓN") {}
  lemma ConsolidacionUnoAUno() ensures UnoAUno("Consolidación", "CONSOLIDACIÓN") {}
  lemma ConsolidacionSinClaves() ensures SinClaves("CONSOLIDACIÓN") {}

  /** The phase names the cycle itself produces mention none of the keywords,
      so they all draw advice from IDEACIÓN. */
  lemma FasesDelCicloDanIdeacion(f: Ciclos.Fase)
    ensures CategoriaDe(Ciclos.NombreFase(f)) == Ideacion
  {
    match f
    case Exploracion =>
      ExploracionUnoAUno();
      ExploracionSinClaves();
      IdeacionSinClaves("Exploración", "EXPLORACIÓN");
    case Experimentacion =>
      ExperimentacionUnoAUno();
      ExperimentacionSinClaves();
      IdeacionSinClaves("Experimentación", "EXPERIMENTACIÓN");
    case Decision =>
      DecisionUnoAUno();
      DecisionSinClaves();
      IdeacionSinClaves("Decisión", "DECISIÓN");
    case Consolidacion =>
      ConsolidacionUnoAUno();
      ConsolidacionSinClaves();
      IdeacionSinClaves("Consolidación", "CONSOLIDACIÓN");
  }
}
