/** Input validators for metrics and projects (validadores.py). A number field
    arrives as its text together with what `float()` or `int()` makes of it:
    None when the conversion raises. */
module Validadores {
  import opened Valores
  import opened Texto
  import Fechas

  /** The `ErrorValidacion` exception: the field, the value received and why. */
  datatype ErrorValidacion = ErrorValidacion(campo: string, valor: string, mensaje: string)

  // ---------------------------------------------------------------------------
  // ValidadorMetricas

  /** `validar_ingresos`: any number up to one million, refunds included. */
  function ValidarIngresos(valor: string, numero: Option<real>): (r: Result<real, ErrorValidacion>)
    ensures r.Ok? <==> numero.Some? && numero.value <= 1000000.0
    ensures r.Ok? ==> r.value == numero.value
    ensures r.Err? ==> r.error.campo == "ingresos" && r.error.valor == valor
  {
    if numero.None? then Err(ErrorValidacion("ingresos", valor, "Debe ser un número válido"))
    else if numero.value > 1000000.0 then Err(ErrorValidacion("ingresos", valor, "Valor sospechosamente alto (>$1M). ¿Typo?"))
    else Ok(numero.value)
  }

  /** `validar_tiempo`: hours of one day, 0 to 24 inclusive. */
  function ValidarTiempo(valor: string, numero: Option<real>): (r: Result<real, ErrorValidacion>)
    ensures r.Ok? <==> numero.Some? && 0.0 <= numero.value <= 24.0
    ensures r.Ok? ==> r.value == numero.value
    ensures r.Err? ==> r.error.campo == "tiempo_invertido" && r.error.valor == valor
  {
    if numero.None? then Err(ErrorValidacion("tiempo_invertido", valor, "Debe ser un número válido"))
    else if numero.value < 0.0 then Err(ErrorValidacion("tiempo_invertido", valor, "No puede ser negativo"))
    else if numero.value > 24.0 then
      Err(ErrorValidacion("tiempo_invertido", valor, "Máximo 24 horas/día. ¿Pusiste minutos en vez de horas?"))
    else Ok(numero.value)
  }

  /** `validar_conversiones`: a whole number from 0 to 10000 inclusive. */
  function ValidarConversiones(valor: string, numero: Option<int>): (r: Result<int, ErrorValidacion>)
    ensures r.Ok? <==> numero.Some? && 0 <= numero.value <= 10000
    ensures r.Ok? ==> r.value == numero.value
    ensures r.Err? ==> r.error.campo == "conversiones" && r.error.valor == valor
  {
    if numero.None? then Err(ErrorValidacion("conversiones", valor, "Debe ser un número entero"))
    else if numero.value < 0 then Err(ErrorValidacion("conversiones", valor, "No puede ser negativo"))
    else if numero.value > 10000 then Err(ErrorValidacion("conversiones", valor, "Valor sospechosamente alto. ¿Typo?"))
    else Ok(numero.value)
  }

  /** Seconds of tolerance for a date slightly in the future (time zones). */
  const ToleranciaSegundos: int := 3600

  /** `validar_fecha`: the text must name a calendar date; its midnight may lie
      at most an hour after `ahora` (seconds, day `d` starting at `d * 86400`).
      The text itself is returned. */
  function ValidarFecha(valor: string, ahora: int): (r: Result<string, ErrorValidacion>)
    ensures r.Ok? <==> Fechas.ParseFechaIso(valor).Some?
                       && Fechas.ParseFechaIso(valor).value * 86400 - ahora <= ToleranciaSegundos
    ensures r.Ok? ==> r.value == valor
    ensures r.Err? ==> r.error.campo == "fecha" && r.error.valor == valor
  {
    var dia := Fechas.ParseFechaIso(valor);
    if dia.None? then Err(ErrorValidacion("fecha", valor, "Formato inválido. Usa YYYY-MM-DD"))
    else
      var t := dia.value * 86400;
      if t > ahora && t - ahora > ToleranciaSegundos then
        Err(ErrorValidacion("fecha", valor, "No puedes registrar métricas del futuro"))
      else Ok(valor)
  }

  /** A date accepted now stays accepted later. */
  lemma ValidarFechaMonotona(valor: string, ahora: int, despues: int)
    requires ahora <= despues
    requires ValidarFecha(valor, ahora).Ok?
    ensures ValidarFecha(valor, despues).Ok?
  {
  }

  // ---------------------------------------------------------------------------
  // ValidadorProyectos

  /** `validar_nombre`: the stripped name, 1 to 100 characters. */
  function ValidarNombre(valor: string): (r: Result<string, ErrorValidacion>)
    ensures r.Ok? <==> 1 <= |Strip(valor)| <= 100
    ensures r.Ok? ==> r.value == Strip(valor)
    ensures r.Err? ==> r.error.campo == "nombre" && r.error.valor == valor
  {
    var nombre := Strip(valor);
    if |nombre| == 0 then Err(ErrorValidacion("nombre", valor, "El nombre no puede estar vacío"))
    else if |nombre| > 100 then Err(ErrorValidacion("nombre", valor, "Máximo 100 caracteres"))
    else Ok(nombre)
  }

  /** `validar_hipotesis`: the stripped text, 10 to 500 characters. */
  function ValidarHipotesis(valor: string): (r: Result<string, ErrorValidacion>)
    ensures r.Ok? <==> 10 <= |Strip(valor)| <= 500
    ensures r.Ok? ==> r.value == Strip(valor)
    ensures r.Err? ==> r.error.campo == "hipotesis" && r.error.valor == valor
  {
    var hipotesis := Strip(valor);
    if |hipotesis| < 10 then Err(ErrorValidacion("hipotesis", valor, "La hipótesis debe tener al menos 10 caracteres."))
    else if |hipotesis| > 500 then Err(ErrorValidacion("hipotesis", valor, "Máximo 500 caracteres."))
    else Ok(hipotesis)
  }

  /** A non-empty strip has no whitespace at either end, occurs in its input
      and strips to itself. */
  lemma StripNormal(valor: string)
    requires Strip(valor) != ""
    ensures var n := Strip(valor);
            && !EsEspacio(n[0]) && !EsEspacio(n[|n| - 1])
            && Contains(valor, n)
            && Strip(n) == n
  {
    StripIsSlice(valor);
    StripIdempotent(valor);
    assert OccursAt(valor, Strip(valor), InicioStrip(valor));
  }

  /** An accepted name is a slice of the input with no surrounding whitespace,
      and validating it again returns it unchanged. */
  lemma NombreNormalizado(valor: string)
    requires ValidarNombre(valor).Ok?
    ensures var n := ValidarNombre(valor).value;
            && !EsEspacio(n[0]) && !EsEspacio(n[|n| - 1])
            && Contains(valor, n)
            && ValidarNombre(n) == Ok(n)
  {
    StripNormal(valor);
  }

  /** The same for an accepted hypothesis. */
  lemma HipotesisNormalizada(valor: string)
    requires ValidarHipotesis(valor).Ok?
    ensures var h := ValidarHipotesis(valor).value;
            && !EsEspacio(h[0]) && !EsEspacio(h[|h| - 1])
            && Contains(valor, h)
            && ValidarHipotesis(h) == Ok(h)
  {
    StripNormal(valor);
  }

}
