/** Backup retention (sistema_90d/backup.py): the names backups get, the
    directory of backups as the sorted list `sorted(glob('sistema_*.db*'))`
    gives, the keep-newest-N cleanup, the "is a backup due?" decision and the
    listing. The file contents, gzip and the copy are left out; the clock is
    the parameters `fecha` (the calendar reading `strftime` formats) and
    `ahora` (the same instant in seconds). */
module Backup {
  import opened Valores
  import opened Texto

  // ---------------------------------------------------------------------------
  // Names

  datatype Instante = Instante(anio: nat, mes: nat, dia: nat, hora: nat, minuto: nat, segundo: nat)

  /** The ranges `datetime` guarantees for its fields. */
  predicate InstanteValido(t: Instante) {
    1 <= t.anio <= 9999 && 1 <= t.mes <= 12 && 1 <= t.dia <= 31
    && t.hora <= 23 && t.minuto <= 59 && t.segundo <= 59
  }

  /** A two-digit `strftime` field such as `%m` or `%H`. */
  function DosCifras(n: nat): (r: string)
    requires n < 100
    ensures |r| == 2 && SonDigitosAscii(r) && ValorDigitos(r) == n
  {
    DecimalValor(n);
    if n < 10 then "0" + Decimal(n) else Decimal(n)
  }

  /** The date half of the stamp, `%Y%m%d`. */
  function FechaTexto(t: Instante): (r: string)
    requires InstanteValido(t)
    ensures SoloDigitos(r)
    ensures ValorDigitos(r) == t.anio * 10000 + t.mes * 100 + t.dia
  {
    var a := Decimal(t.anio);
    var m := DosCifras(t.mes);
    var d := DosCifras(t.dia);
    DecimalValor(t.anio);
    ValorDigitosConcat(a, m);
    ValorDigitosConcat(a + m, d);
    a + m + d
  }

  /** The time half of the stamp, `%H%M%S`. */
  function HoraTexto(t: Instante): (r: string)
    requires InstanteValido(t)
    ensures |r| == 6 && SoloDigitos(r)
    ensures ValorDigitos(r) == t.hora * 10000 + t.minuto * 100 + t.segundo
  {
    var h := DosCifras(t.hora);
    var m := DosCifras(t.minuto);
    var s := DosCifras(t.segundo);
    ValorDigitosConcat(h, m);
    ValorDigitosConcat(h + m, s);
    h + m + s
  }

  /** `strftime('%Y%m%d_%H%M%S')`; the C library writes the year without padding. */
  function Marca(t: Instante): string
    requires InstanteValido(t)
  {
    FechaTexto(t) + "_" + HoraTexto(t)
  }

  const Prefijo: string := "sistema_"

  /** The pattern `sistema_*.db*`: the prefix, then ".db" somewhere after it. */
  predicate CoincideGlob(n: string) {
    StartsWith(n, Prefijo) && Contains(n[|Prefijo|..], ".db")
  }

  /** The name `crear_backup` gives: `sistema_<marca>.db`, plus `.gz` exactly when compressing. */
  function NombreBackup(t: Instante, comprimir: bool): (n: string)
    requires InstanteValido(t)
    ensures StartsWith(n, Prefijo)
    ensures EndsWith(n, ".gz") <==> comprimir
  {
    var base := Prefijo + Marca(t) + ".db";
    if comprimir then base + ".gz"
    else
      assert base[|base| - 3..] == ".db";
      base
  }

  /** Every name `crear_backup` gives is one the glob of the cleanup and the listing picks up. */
  lemma NombreCoincideGlob(t: Instante, comprimir: bool)
    requires InstanteValido(t)
    ensures CoincideGlob(NombreBackup(t, comprimir))
  {
    var m := Marca(t);
    var n := NombreBackup(t, comprimir);
    var ext := if comprimir then ".gz" else "";
    var cola := n[|Prefijo|..];
    assert n == Prefijo + (m + ".db" + ext);
    assert cola == m + ".db" + ext;
    assert cola[|m|..|m| + 3] == ".db" by {
      forall i | 0 <= i < 3 ensures cola[|m| + i] == ".db"[i] {
        assert cola[|m| + i] == (m + ".db")[|m| + i];
      }
    }
    assert OccursAt(cola, ".db", |m|);
    ContainsIff(cola, ".db");
  }

  /** A four-digit year gives an eight-character date and a fifteen-character stamp. */
  lemma MarcaLongitud(t: Instante)
    requires InstanteValido(t) && 1000 <= t.anio
    ensures |FechaTexto(t)| == 8
    ensures |Marca(t)| == 15
  {
    assert |Decimal(t.anio / 1000)| == 1;
    assert |Decimal(t.anio / 100)| == 2;
    assert |Decimal(t.anio / 10)| == 3;
  }

  /** `datetime` order: field by field, from the year down to the second. */
  predicate AntesQue(t1: Instante, t2: Instante) {
    if t1.anio != t2.anio then t1.anio < t2.anio
    else if t1.mes != t2.mes then t1.mes < t2.mes
    else if t1.dia != t2.dia then t1.dia < t2.dia
    else if t1.hora != t2.hora then t1.hora < t2.hora
    else if t1.minuto != t2.minuto then t1.minuto < t2.minuto
    else t1.segundo < t2.segundo
  }

  /** The order of instants, read off the numbers the two halves of the stamp spell. */
  lemma AntesQueClaves(t1: Instante, t2: Instante)
    requires InstanteValido(t1) && InstanteValido(t2) && AntesQue(t1, t2)
    ensures ValorDigitos(FechaTexto(t1)) < ValorDigitos(FechaTexto(t2))
         || (ValorDigitos(FechaTexto(t1)) == ValorDigitos(FechaTexto(t2))
             && ValorDigitos(HoraTexto(t1)) < ValorDigitos(HoraTexto(t2)))
  {
  }

  /** What follows the date in a name. */
  function Cola(t: Instante, comprimir: bool): string
    requires InstanteValido(t)
  {
    "_" + HoraTexto(t) + (if comprimir then ".db.gz" else ".db")
  }

  lemma NombrePartes(t: Instante, comprimir: bool)
    requires InstanteValido(t)
    ensures NombreBackup(t, comprimir) == Prefijo + (FechaTexto(t) + Cola(t, comprimir))
  {
  }

  /** With four-digit years, names sort by the instant they were taken at, so
      the name order of the listing is the "oldest first" the cleanup relies on. */
  lemma NombresCronologicos(t1: Instante, c1: bool, t2: Instante, c2: bool)
    requires InstanteValido(t1) && InstanteValido(t2)
    requires 1000 <= t1.anio && 1000 <= t2.anio
    requires AntesQue(t1, t2)
    ensures LexMenor(NombreBackup(t1, c1), NombreBackup(t2, c2))
  {
    var f1, f2 := FechaTexto(t1), FechaTexto(t2);
    var k1, k2 := Cola(t1, c1), Cola(t2, c2);
    MarcaLongitud(t1);
    MarcaLongitud(t2);
    AntesQueClaves(t1, t2);
    if ValorDigitos(f1) < ValorDigitos(f2) {
      DigitosMenor(f1, f2);
      LexMenorConcat(f1, k1, f2, k2);
    } else {
      DigitosIguales(f1, f2);
      var h1, h2 := HoraTexto(t1), HoraTexto(t2);
      var e1, e2 := (if c1 then ".db.gz" else ".db"), (if c2 then ".db.gz" else ".db");
      DigitosMenor(h1, h2);
      LexMenorConcat(h1, e1, h2, e2);
      LexMenorPrefijoComun("_", h1 + e1, h2 + e2);
      assert k1 == "_" + (h1 + e1) && k2 == "_" + (h2 + e2);
      LexMenorPrefijoComun(f1, k1, k2);
    }
    NombrePartes(t1, c1);
    NombrePartes(t2, c2);
    LexMenorPrefijoComun(Prefijo, f1 + k1, f2 + k2);
  }

  // ---------------------------------------------------------------------------
  // The sorted listing

  /** A new file entering the sorted listing; a name already there is overwritten, not repeated. */
  function Insertar(s: seq<string>, x: string): (r: seq<string>)
    ensures forall y :: y in r <==> y in s || y == x
  {
    if |s| == 0 then [x]
    else if x == s[0] then s
    else if LexMenor(x, s[0]) then [x] + s
    else [s[0]] + Insertar(s[1..], x)
  }

  /** A name below every entry of a sorted listing can head it. */
  lemma OrdenadaCons(a: string, r: seq<string>)
    requires Ordenada(r)
    requires forall k :: 0 <= k < |r| ==> LexMenor(a, r[k])
    ensures Ordenada([a] + r)
  {
    var s := [a] + r;
    forall i, j | 0 <= i < j < |s| ensures LexMenor(s[i], s[j]) {
      if i > 0 {
        assert s[i] == r[i - 1] && s[j] == r[j - 1];
      } else {
        assert s[j] == r[j - 1];
      }
    }
  }

  /** Inserting keeps the listing sorted. */
  lemma {:induction false} InsertarOrdenada(s: seq<string>, x: string)
    requires Ordenada(s)
    ensures Ordenada(Insertar(s, x))
    decreases |s|
  {
    if |s| > 0 && x != s[0] {
      if LexMenor(x, s[0]) {
        forall k | 0 <= k < |s| ensures LexMenor(x, s[k]) {
          if k > 0 {
            LexMenorTransitivo(x, s[0], s[k]);
          }
        }
        OrdenadaCons(x, s);
      } else {
        LexMenorTotal(x, s[0]);
        var resto := s[1..];
        assert Ordenada(resto) by {
          forall i, j | 0 <= i < j < |resto| ensures LexMenor(resto[i], resto[j]) {
            assert resto[i] == s[i + 1] && resto[j] == s[j + 1];
          }
        }
        InsertarOrdenada(resto, x);
        var r := Insertar(resto, x);
        forall k | 0 <= k < |r| ensures LexMenor(s[0], r[k]) {
          assert r[k] in r;
          if r[k] != x {
            var m :| 0 <= m < |resto| && resto[m] == r[k];
            assert s[m + 1] == r[k];
          }
        }
        OrdenadaCons(s[0], r);
      }
    }
  }

  /** `unlink`: the name leaves the listing. */
  function Quitar(s: seq<string>, x: string): (r: seq<string>)
    ensures forall y :: y in r <==> y in s && y != x
  {
    if |s| == 0 then []
    else (if s[0] == x then [] else [s[0]]) + Quitar(s[1..], x)
  }

  /** Removing a name that is not there changes nothing. */
  lemma {:induction false} QuitarAusente(s: seq<string>, x: string)
    requires x !in s
    ensures Quitar(s, x) == s
  {
    if |s| > 0 {
      QuitarAusente(s[1..], x);
      assert s == [s[0]] + s[1..];
    }
  }

  /** Removing the oldest file of a sorted listing leaves the rest of it. */
  lemma QuitarPrimero(s: seq<string>)
    requires Ordenada(s) && |s| > 0
    ensures Quitar(s, s[0]) == s[1..]
  {
    if s[0] in s[1..] {
      var k :| 0 <= k < |s[1..]| && s[1..][k] == s[0];
      assert LexMenor(s[0], s[k + 1]);
      LexMenorIrreflexivo(s[0]);
    }
    QuitarAusente(s[1..], s[0]);
  }

  /** A suffix of a sorted listing is sorted. */
  lemma OrdenadaSufijo(s: seq<string>, i: nat)
    requires Ordenada(s) && i <= |s|
    ensures Ordenada(s[i..])
  {
    forall a, b | 0 <= a < b < |s| - i ensures LexMenor(s[i..][a], s[i..][b]) {
      assert s[i..][a] == s[i + a] && s[i..][b] == s[i + b];
    }
  }

  /** `backups[:-max_backups]` when there are more than `max_backups`, else
      nothing. What goes is always the oldest part of the listing: with more
      than `max_backups` files (and `max_backups` at least 1) exactly the
      oldest `count - max_backups`; nothing when `max_backups` is 0 (the
      slice `[:-0]` is empty); and a negative `max_backups` deletes that many
      of the oldest files. */
  function AEliminar(b: seq<string>, maxBackups: int): (r: seq<string>)
    ensures |r| <= |b| && r == b[..|r|]
    ensures maxBackups >= 1 && |b| > maxBackups ==> |r| == |b| - maxBackups
    ensures |b| <= maxBackups || maxBackups == 0 ==> r == []
    ensures maxBackups < 0 ==> |r| == if -maxBackups < |b| then -maxBackups else |b|
  {
    if |b| > maxBackups then Rebanada(b, 0, -maxBackups) else []
  }

  /** In a sorted listing every deleted name is older than every kept one. */
  lemma EliminadosMasAntiguos(b: seq<string>, maxBackups: int)
    requires Ordenada(b)
    ensures var k := |AEliminar(b, maxBackups)|;
            forall x, y :: x in AEliminar(b, maxBackups) && y in b[k..] ==> LexMenor(x, y)
  {
    var e := AEliminar(b, maxBackups);
    var k := |e|;
    forall x, y | x in e && y in b[k..] ensures LexMenor(x, y) {
      var i :| 0 <= i < k && e[i] == x;
      var j :| 0 <= j < |b| - k && b[k..][j] == y;
      assert b[i] == x && b[k + j] == y;
    }
  }

  /** One entry of `listar_backups`, without the size and path. */
  datatype InfoBackup = InfoBackup(nombre: string, mtime: real, comprimido: bool)

  /** `listar_backups`: newest first, `comprimido` when the suffix is ".gz". */
  function Listado(b: seq<string>, mtime: map<string, real>): (r: seq<InfoBackup>)
    requires forall k :: 0 <= k < |b| ==> b[k] in mtime
    ensures |r| == |b|
    ensures forall x :: x in b <==> exists i :: 0 <= i < |r| && r[i].nombre == x
    ensures forall i :: 0 <= i < |r| ==> r[i].nombre in mtime && r[i].mtime == mtime[r[i].nombre]
  {
    var r := seq(|b|, i requires 0 <= i < |b| => InfoBackup(b[|b| - 1 - i], mtime[b[|b| - 1 - i]], EndsWith(b[|b| - 1 - i], ".gz")));
    assert forall k :: 0 <= k < |b| ==> r[|b| - 1 - k].nombre == b[k];
    r
  }

  /** The listing runs from the newest name to the oldest, and flags exactly the compressed files. */
  lemma ListadoDecreciente(b: seq<string>, mtime: map<string, real>)
    requires Ordenada(b)
    requires forall k :: 0 <= k < |b| ==> b[k] in mtime
    ensures forall i, j :: 0 <= i < j < |b| ==> LexMenor(Listado(b, mtime)[j].nombre, Listado(b, mtime)[i].nombre)
    ensures forall i :: 0 <= i < |b| ==> (Listado(b, mtime)[i].comprimido <==> EndsWith(Listado(b, mtime)[i].nombre, ".gz"))
    ensures |b| > 0 ==> Listado(b, mtime)[0].nombre == b[|b| - 1]
  {
    var r := Listado(b, mtime);
    forall i, j | 0 <= i < j < |b| ensures LexMenor(r[j].nombre, r[i].nombre) {
      assert r[j].nombre == b[|b| - 1 - j] && r[i].nombre == b[|b| - 1 - i];
    }
  }

  /** The "is a backup due?" test: at least `intervalo` hours since the newest file's mtime. */
  predicate Necesita(b: seq<string>, mtime: map<string, real>, ahora: real, intervalo: int)
    requires |b| > 0 && b[|b| - 1] in mtime
  {
    (ahora - mtime[b[|b| - 1]]) / 3600.0 >= intervalo as real
  }

  /** A name above every entry of a sorted listing goes to its end. */
  lemma {:induction false} InsertarAlFinal(s: seq<string>, x: string)
    requires forall k :: 0 <= k < |s| ==> LexMenor(s[k], x)
    ensures Insertar(s, x) == s + [x]
  {
    if |s| > 0 {
      LexMenorIrreflexivo(x);
      LexMenorAsimetrico(s[0], x);
      InsertarAlFinal(s[1..], x);
      assert [s[0]] + (s[1..] + [x]) == s + [x];
    }
  }

  /** Right after a backup newer than every file, the next call within
      `intervalo` hours finds none due: the new file is the newest one kept
      by the cleanup, and its mtime is the time it was made. */
  lemma RecienCreadoNoNecesita(b: seq<string>, mtime: map<string, real>, nombre: string,
                               ahora: real, despues: real, intervalo: int)
    requires forall k :: 0 <= k < |b| ==> LexMenor(b[k], nombre)
    requires (despues - ahora) / 3600.0 < intervalo as real
    ensures var nuevos := Insertar(b, nombre);
            var quedan := nuevos[|AEliminar(nuevos, MaxBackupsPorDefecto)|..];
            && |quedan| > 0 && quedan[|quedan| - 1] == nombre
            && !Necesita(quedan, mtime[nombre := ahora], despues, intervalo)
  {
    InsertarAlFinal(b, nombre);
    var nuevos := b + [nombre];
    var quedan := nuevos[|AEliminar(nuevos, MaxBackupsPorDefecto)|..];
    assert quedan[|quedan| - 1] == nuevos[|nuevos| - 1];
  }

  const MaxBackupsPorDefecto: int := 30

  class SistemaBackup {
    /** The backups in the directory, as `sorted(glob('sistema_*.db*'))` lists them. */
    var archivos: seq<string>
    /** Each file's modification time in seconds. */
    var mtime: map<string, real>

    ghost predicate Valid()
      reads this
    {
      && Ordenada(archivos)
      && forall k :: 0 <= k < |archivos| ==> CoincideGlob(archivos[k]) && archivos[k] in mtime
    }

    /** `__init__`: `mkdir(exist_ok=True)` keeps whatever backups the
        directory already holds, given here as their sorted listing and
        their modification times. */
    constructor (existentes: seq<string>, tiempos: map<string, real>)
      requires Ordenada(existentes)
      requires forall k :: 0 <= k < |existentes| ==> CoincideGlob(existentes[k]) && existentes[k] in tiempos
      ensures Valid() && archivos == existentes && mtime == tiempos
    {
      archivos := existentes;
      mtime := tiempos;
    }

    /** `crear_backup`: a missing database raises FileNotFoundError;
        otherwise the named file appears. A gzip copy is a new file written
        at `ahora`; a plain copy is made with `shutil.copy2`, which keeps the
        database file's own modification time `mtimeDb`. */
    method CrearBackup(dbExiste: bool, fecha: Instante, ahora: real, mtimeDb: real, comprimir: bool)
      returns (r: Result<string, string>)
      requires Valid() && InstanteValido(fecha)
      modifies this
      ensures Valid()
      ensures !dbExiste ==> r.Err? && archivos == old(archivos) && mtime == old(mtime)
      ensures dbExiste ==> && r == Ok(NombreBackup(fecha, comprimir))
                           && archivos == Insertar(old(archivos), r.value)
                           && mtime == old(mtime)[r.value := if comprimir then ahora else mtimeDb]
    {
      if !dbExiste {
        return Err("FileNotFoundError");
      }
      var nombre := NombreBackup(fecha, comprimir);
      NombreCoincideGlob(fecha, comprimir);
      InsertarOrdenada(archivos, nombre);
      archivos := Insertar(archivos, nombre);
      mtime := mtime[nombre := if comprimir then ahora else mtimeDb];
      r := Ok(nombre);
      assert forall k :: 0 <= k < |archivos| ==> archivos[k] in old(archivos) || archivos[k] == nombre;
    }

    /** `limpiar_backups_antiguos`: unlinks the files of `backups[:-max_backups]`, oldest first. */
    method LimpiarBackupsAntiguos(maxBackups: int)
      requires Valid()
      modifies this
      ensures Valid()
      ensures archivos == old(archivos)[|AEliminar(old(archivos), maxBackups)|..]
      ensures mtime == old(mtime)
    {
      var backups := archivos;
      var aEliminar := AEliminar(backups, maxBackups);
      for i := 0 to |aEliminar|
        invariant archivos == backups[i..]
        invariant mtime == old(mtime)
      {
        OrdenadaSufijo(backups, i);
        assert aEliminar[i] == backups[i..][0];
        QuitarPrimero(backups[i..]);
        assert backups[i..][1..] == backups[i + 1..];
        archivos := Quitar(archivos, aEliminar[i]);
      }
      OrdenadaSufijo(backups, |aEliminar|);
      assert forall k :: 0 <= k < |archivos| ==> archivos[k] == backups[k + |aEliminar|];
    }

    /** `backup_automatico_si_necesario`: with no backups it creates one;
        otherwise it creates one and cleans up to the default 30 exactly when
        `intervalo` hours have passed since the newest file's mtime, and
        changes nothing when they have not. `Ok(true)` means a backup was made. */
    method BackupAutomaticoSiNecesario(intervalo: int, dbExiste: bool, fecha: Instante, ahora: real)
      returns (r: Result<bool, string>)
      requires Valid() && InstanteValido(fecha)
      modifies this
      ensures Valid()
      ensures |old(archivos)| == 0 ==>
                (dbExiste ==> && r == Ok(true) && archivos == [NombreBackup(fecha, true)]
                              && mtime == old(mtime)[NombreBackup(fecha, true) := ahora])
                && (!dbExiste ==> r.Err? && archivos == old(archivos) && mtime == old(mtime))
      ensures |old(archivos)| > 0 && !Necesita(old(archivos), old(mtime), ahora, intervalo) ==>
                r == Ok(false) && archivos == old(archivos) && mtime == old(mtime)
      ensures |old(archivos)| > 0 && Necesita(old(archivos), old(mtime), ahora, intervalo) ==>
                (dbExiste ==> && r == Ok(true)
                              && mtime == old(mtime)[NombreBackup(fecha, true) := ahora]
                              && var nuevos := Insertar(old(archivos), NombreBackup(fecha, true));
                                 archivos == nuevos[|AEliminar(nuevos, MaxBackupsPorDefecto)|..])
                && (!dbExiste ==> r.Err? && archivos == old(archivos) && mtime == old(mtime))
    {
      if |archivos| == 0 {
        var creado := CrearBackup(dbExiste, fecha, ahora, ahora, true);
        if creado.Err? {
          return Err(creado.error);
        }
        return Ok(true);
      }
      if Necesita(archivos, mtime, ahora, intervalo) {
        var creado := CrearBackup(dbExiste, fecha, ahora, ahora, true);
        if creado.Err? {
          return Err(creado.error);
        }
        LimpiarBackupsAntiguos(MaxBackupsPorDefecto);
        return Ok(true);
      }
      return Ok(false);
    }

    /** `listar_backups`: builds the listing newest first in a loop. */
    method ListarBackups() returns (r: seq<InfoBackup>)
      requires Valid()
      ensures r == Listado(archivos, mtime)
    {
      r := [];
      var n := |archivos|;
      for i := 0 to n
        invariant |r| == i
        invariant forall k :: 0 <= k < i ==> r[k] == Listado(archivos, mtime)[k]
      {
        var nombre := archivos[n - 1 - i];
        r := r + [InfoBackup(nombre, mtime[nombre], EndsWith(nombre, ".gz"))];
      }
    }
  }
}
