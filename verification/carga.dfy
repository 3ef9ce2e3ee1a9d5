/**
 * The bulk load of borrowers (`bulkLoad`) and the listing of its logs
 * (`getLoadLogs`): a text of lines is cut into non-blank lines, a header
 * line may be skipped, every other line is accepted or rejected with the
 * reason of its first failing check, and the detail rows of the load log
 * record each verdict.
 */
module Carga {
  import opened Wrappers
  import opened Js
  import opened Text
  import opened Ordering

  const SinContenido: string := "Contenido CSV/TXT requerido en \"content\""

  /** The longest telephone number the table takes. */
  const MaxTelefono: nat := 20

  /** The separators of a data line: comma, semicolon or tab. */
  predicate EsSeparador(c: char) {
    c == ',' || c == ';' || c == '\t'
  }

  /** `rawLine.split(/[,;\t]/).map(s => s.trim())`. */
  function Partes(raw: string): (r: seq<string>)
    ensures |r| == CountSep(raw, EsSeparador) + 1
    ensures forall i :: 0 <= i < |r| ==> Trim(r[i]) == r[i]
  {
    var ps := Split(raw, EsSeparador);
    var r := seq(|ps|, i requires 0 <= i < |ps| => Trim(ps[i]));
    forall i | 0 <= i < |r|
      ensures Trim(r[i]) == r[i]
    {
      TrimIdempotent(ps[i]);
    }
    r
  }

  /** A header line: the first line, when it starts with `ci,`, `ci;` or `ci<TAB>` in any case. */
  predicate EsCabecera(line: string) {
    var lower := ToLower(line);
    StartsWith(lower, "ci,") || StartsWith(lower, "ci;") || StartsWith(lower, "ci\t")
  }

  /** Why a line is rejected. */
  datatype Motivo = Columnas | CiInvalido | TelefonoVacio | TelefonoLargo | FechaInvalida {
    function Descripcion(): string {
      match this
      case Columnas => "Número de columnas inválido"
      case CiInvalido => "CI vacío o inválido"
      case TelefonoVacio => "Teléfono vacío o inválido"
      case TelefonoLargo => "Teléfono demasiado largo (máx 20 caracteres)"
      case FechaInvalida => "fecha_nacimiento inválida (usa YYYY-MM-DD)"
    }
  }

  /** An accepted line, as the row to insert; `usuario` is the loader, not the ninth column. */
  datatype FilaAceptada = FilaAceptada(
    linea: nat,
    ci: string,
    nombre: string,
    apellido: string,
    direccion: string,
    email: string,
    telefono: string,
    fechaNacimiento: string,
    estadoCliente: string,
    usuario: string)

  /** A rejected line, with what could be read of it and the reason. */
  datatype FilaRechazada = FilaRechazada(
    linea: nat,
    contenido: string,
    ci: Option<string>,
    nombre: Option<string>,
    telefono: Option<string>,
    motivo: Motivo)

  datatype Veredicto = Acepta(a: FilaAceptada) | Rechaza(x: FilaRechazada) {
    function Linea(): nat {
      if Acepta? then a.linea else x.linea
    }
  }

  /**
   * The checks a data line must pass: nine fields, a CI that is non-empty
   * and a number (`num` is `Number(...)`; only NaN fails), a non-empty
   * telephone of at most twenty characters, and a `YYYY-MM-DD` birth date.
   */
  predicate LineaValida(raw: string, num: string -> Num) {
    var p := Partes(raw);
    && |p| == 9
    && p[0] != "" && !num(p[0]).NaN?
    && p[5] != "" && |p[5]| <= MaxTelefono
    && IsIsoDate(p[6])
  }

  /** The verdict on line number `linea`; `ClasificarAcepta` and `ClasificarMotivo` state which check decides it. */
  function Clasificar(linea: nat, raw: string, usuario: string, num: string -> Num): (v: Veredicto)
    ensures v.Acepta? ==> v.a.linea == linea && v.a.usuario == usuario
    ensures v.Rechaza? ==> v.x.linea == linea && v.x.contenido == raw
  {
    var p := Partes(raw);
    if |p| != 9 then Rechaza(FilaRechazada(linea, raw, None, None, None, Columnas))
    else
      var ci, nombre, telefono, fecha := p[0], p[1], p[5], p[6];
      var motivo :=
        if ci == "" || num(ci).NaN? then Some(CiInvalido)
        else if telefono == "" then Some(TelefonoVacio)
        else if |telefono| > MaxTelefono then Some(TelefonoLargo)
        else if !IsIsoDate(fecha) then Some(FechaInvalida)
        else None;
      if motivo.Some? then Rechaza(FilaRechazada(linea, raw, OrNull(Some(ci)), OrNull(Some(nombre)), OrNull(Some(telefono)), motivo.value))
      else Acepta(FilaAceptada(linea, ci, nombre, p[2], p[3], p[4], telefono, fecha, p[7], usuario))
  }

  /** A line is accepted exactly when it passes every check. */
  lemma ClasificarAcepta(linea: nat, raw: string, usuario: string, num: string -> Num)
    ensures Clasificar(linea, raw, usuario, num).Acepta? <==> LineaValida(raw, num)
  {
    var p := Partes(raw);
    if |p| == 9 {
      assert LineaValida(raw, num) <==> !(p[0] == "" || num(p[0]).NaN?) && p[5] != "" && |p[5]| <= MaxTelefono && IsIsoDate(p[6]);
    }
  }

  /**
   * A rejected line carries the reason of the first check it fails: the
   * field count (eight separators make nine fields), the CI, the
   * telephone, the date; what it reports of the line is never empty text.
   */
  lemma ClasificarMotivo(linea: nat, raw: string, usuario: string, num: string -> Num)
    ensures var v := Clasificar(linea, raw, usuario, num);
            && (v.Rechaza? && v.x.motivo == Columnas <==> CountSep(raw, EsSeparador) != 8)
            && (v.Rechaza? && v.x.motivo == CiInvalido <==> |Partes(raw)| == 9 && (Partes(raw)[0] == "" || num(Partes(raw)[0]).NaN?))
            && (v.Rechaza? && v.x.motivo == TelefonoVacio ==> |Partes(raw)| == 9 && !num(Partes(raw)[0]).NaN? && Partes(raw)[5] == "")
            && (v.Rechaza? && v.x.motivo == TelefonoLargo ==> |Partes(raw)| == 9 && |Partes(raw)[5]| > MaxTelefono)
            && (v.Rechaza? && v.x.motivo == FechaInvalida ==> |Partes(raw)| == 9 && |Partes(raw)[5]| <= MaxTelefono && !IsIsoDate(Partes(raw)[6]))
            && (v.Rechaza? ==> (v.x.ci.Some? ==> v.x.ci.value != "") && (v.x.telefono.Some? ==> v.x.telefono.value != ""))
  {
  }

  /** How many leading lines are a skipped header: one or none. */
  function Salto(lines: seq<string>): nat {
    if |lines| > 0 && EsCabecera(lines[0]) then 1 else 0
  }

  /** The verdict on every line, numbered from 1. */
  function Veredictos(lines: seq<string>, usuario: string, num: string -> Num): (vs: seq<Veredicto>)
    ensures |vs| == |lines|
    ensures Numerados(vs, 0) && DelUsuario(vs, usuario)
    decreases |lines|
  {
    if |lines| == 0 then []
    else
      var init := Veredictos(lines[..|lines| - 1], usuario, num);
      var last := Clasificar(|lines|, lines[|lines| - 1], usuario, num);
      var vs := init + [last];
      assert Numerados(vs, 0) by {
        forall n | 0 <= n < |vs|
          ensures vs[n].Linea() == n + 1
        {
          if n < |init| {
            assert vs[n] == init[n];
          }
        }
      }
      assert DelUsuario(vs, usuario) by {
        forall n | 0 <= n < |vs| && vs[n].Acepta?
          ensures vs[n].a.usuario == usuario
        {
          if n < |init| {
            assert vs[n] == init[n];
          }
        }
      }
      vs
  }

  /** The verdict on the line at position `n` is that line's classification as line `n + 1`. */
  lemma {:induction false} VeredictoDe(lines: seq<string>, usuario: string, num: string -> Num, n: nat)
    requires n < |lines|
    ensures Veredictos(lines, usuario, num)[n] == Clasificar(n + 1, lines[n], usuario, num)
    decreases |lines|
  {
    var init := lines[..|lines| - 1];
    var last := Clasificar(|lines|, lines[|lines| - 1], usuario, num);
    var vs := Veredictos(lines, usuario, num);
    assert vs == Veredictos(init, usuario, num) + [last];
    if n < |init| {
      assert vs[n] == Veredictos(init, usuario, num)[n];
      VeredictoDe(init, usuario, num, n);
      assert init[n] == lines[n];
    } else {
      assert n + 1 == |lines| && lines[n] == lines[|lines| - 1];
      assert vs[n] == last;
    }
  }

  /** The accepted rows among a run of verdicts, in order. */
  function AceptadasDe(ws: seq<Veredicto>): (r: seq<FilaAceptada>)
  {
    if |ws| == 0 then []
    else
      var w := ws[|ws| - 1];
      assert ws == ws[..|ws| - 1] + [w];
      AceptadasDe(ws[..|ws| - 1]) + (if w.Acepta? then [w.a] else [])
  }

  /** The rejected rows among a run of verdicts, in order. */
  function RechazadasDe(ws: seq<Veredicto>): (r: seq<FilaRechazada>)
  {
    if |ws| == 0 then []
    else
      var w := ws[|ws| - 1];
      assert ws == ws[..|ws| - 1] + [w];
      RechazadasDe(ws[..|ws| - 1]) + (if w.Rechaza? then [w.x] else [])
  }

  /** Every verdict lands in exactly one of the two lists. */
  lemma {:induction false} PartirCuenta(ws: seq<Veredicto>)
    ensures |AceptadasDe(ws)| + |RechazadasDe(ws)| == |ws|
    decreases |ws|
  {
    if |ws| > 0 {
      PartirCuenta(ws[..|ws| - 1]);
    }
  }

  /** Verdicts numbered `base + 1`, `base + 2`, ... in order. */
  predicate Numerados(ws: seq<Veredicto>, base: nat) {
    forall n :: 0 <= n < |ws| ==> ws[n].Linea() == base + n + 1
  }

  /** Every accepted row of the verdicts carries the loader `usuario`. */
  predicate DelUsuario(ws: seq<Veredicto>, usuario: string) {
    forall n :: 0 <= n < |ws| && ws[n].Acepta? ==> ws[n].a.usuario == usuario
  }

  /** The accepted rows keep their verdict's position and come in strict line order. */
  lemma {:induction false} AceptadasOrdenadas(ws: seq<Veredicto>, base: nat)
    requires Numerados(ws, base)
    ensures forall i :: 0 <= i < |AceptadasDe(ws)| ==> base < AceptadasDe(ws)[i].linea <= base + |ws|
    ensures forall i :: 0 <= i < |AceptadasDe(ws)| ==> ws[AceptadasDe(ws)[i].linea - base - 1] == Acepta(AceptadasDe(ws)[i])
    ensures forall i, j :: 0 <= i < j < |AceptadasDe(ws)| ==> AceptadasDe(ws)[i].linea < AceptadasDe(ws)[j].linea
    decreases |ws|
  {
    if |ws| > 0 {
      var init := ws[..|ws| - 1];
      assert Numerados(init, base) by {
        forall n | 0 <= n < |init|
          ensures init[n].Linea() == base + n + 1
        {
          assert init[n] == ws[n];
        }
      }
      AceptadasOrdenadas(init, base);
      var w := ws[|ws| - 1];
      assert w.Linea() == base + |ws|;
      var p := AceptadasDe(init);
      var r := AceptadasDe(ws);
      if w.Acepta? {
        assert r == p + [w.a];
      } else {
        assert r == p;
      }
      forall i | 0 <= i < |r|
        ensures base < r[i].linea <= base + |ws| && ws[r[i].linea - base - 1] == Acepta(r[i])
      {
        if i < |p| {
          assert r[i] == p[i];
          assert ws[p[i].linea - base - 1] == init[p[i].linea - base - 1];
        } else {
          assert r[i] == w.a;
        }
      }
      forall i, j | 0 <= i < j < |r|
        ensures r[i].linea < r[j].linea
      {
        assert r[i] == p[i];
        if j < |p| {
          assert r[j] == p[j];
        } else {
          assert r[j] == w.a;
        }
      }
    }
  }

  /** The rejected rows keep their verdict's position and come in strict line order. */
  lemma {:induction false} RechazadasOrdenadas(ws: seq<Veredicto>, base: nat)
    requires Numerados(ws, base)
    ensures forall i :: 0 <= i < |RechazadasDe(ws)| ==> base < RechazadasDe(ws)[i].linea <= base + |ws|
    ensures forall i :: 0 <= i < |RechazadasDe(ws)| ==> ws[RechazadasDe(ws)[i].linea - base - 1] == Rechaza(RechazadasDe(ws)[i])
    ensures forall i, j :: 0 <= i < j < |RechazadasDe(ws)| ==> RechazadasDe(ws)[i].linea < RechazadasDe(ws)[j].linea
    decreases |ws|
  {
    if |ws| > 0 {
      var init := ws[..|ws| - 1];
      assert Numerados(init, base) by {
        forall n | 0 <= n < |init|
          ensures init[n].Linea() == base + n + 1
        {
          assert init[n] == ws[n];
        }
      }
      RechazadasOrdenadas(init, base);
      var w := ws[|ws| - 1];
      assert w.Linea() == base + |ws|;
      var p := RechazadasDe(init);
      var r := RechazadasDe(ws);
      if w.Rechaza? {
        assert r == p + [w.x];
      } else {
        assert r == p;
      }
      forall i | 0 <= i < |r|
        ensures base < r[i].linea <= base + |ws| && ws[r[i].linea - base - 1] == Rechaza(r[i])
      {
        if i < |p| {
          assert r[i] == p[i];
          assert ws[p[i].linea - base - 1] == init[p[i].linea - base - 1];
        } else {
          assert r[i] == w.x;
        }
      }
      forall i, j | 0 <= i < j < |r|
        ensures r[i].linea < r[j].linea
      {
        assert r[i] == p[i];
        if j < |p| {
          assert r[j] == p[j];
        } else {
          assert r[j] == w.x;
        }
      }
    }
  }

  /**
   * The classification loop over the verdicts: the first `salto` verdicts
   * (a header: one or none) are skipped, and every other one is appended
   * to the accepted or to the rejected rows.
   */
  method Partir(vs: seq<Veredicto>, salto: nat) returns (total: nat, aceptadas: seq<FilaAceptada>, rechazadas: seq<FilaRechazada>)
    requires salto <= |vs|
    ensures aceptadas == AceptadasDe(vs[salto..]) && rechazadas == RechazadasDe(vs[salto..])
    ensures total == |vs| - salto
  {
    total, aceptadas, rechazadas := 0, [], [];
    var idx := salto;
    while idx < |vs|
      invariant salto <= idx <= |vs|
      invariant total == idx - salto
      invariant aceptadas == AceptadasDe(vs[salto..idx])
      invariant rechazadas == RechazadasDe(vs[salto..idx])
    {
      assert vs[salto..idx + 1][..idx - salto] == vs[salto..idx];
      var v := vs[idx];
      total := total + 1;
      if v.Acepta? {
        aceptadas := aceptadas + [v.a];
      } else {
        rechazadas := rechazadas + [v.x];
      }
      idx := idx + 1;
    }
    assert vs[salto..idx] == vs[salto..];
  }

  /** Dropping the first `salto` of verdicts numbered from 1 leaves verdicts numbered from `salto + 1`. */
  lemma Desplazados(vs: seq<Veredicto>, salto: nat)
    requires salto <= |vs| && Numerados(vs, 0)
    ensures Numerados(vs[salto..], salto)
  {
    var ws := vs[salto..];
    forall n | 0 <= n < |ws|
      ensures ws[n].Linea() == salto + n + 1
    {
      assert ws[n] == vs[salto + n];
    }
  }

  /**
   * The accepted rows after the first `salto` verdicts: each sits at its
   * line's verdict, past the skipped ones, and they come in line order.
   */
  lemma RepartoAceptadas(vs: seq<Veredicto>, salto: nat)
    requires salto <= |vs| && Numerados(vs, 0)
    ensures forall i :: 0 <= i < |AceptadasDe(vs[salto..])| ==>
              && salto < AceptadasDe(vs[salto..])[i].linea <= |vs|
              && vs[AceptadasDe(vs[salto..])[i].linea - 1] == Acepta(AceptadasDe(vs[salto..])[i])
    ensures forall i, j :: 0 <= i < j < |AceptadasDe(vs[salto..])| ==> AceptadasDe(vs[salto..])[i].linea < AceptadasDe(vs[salto..])[j].linea
  {
    var ws := vs[salto..];
    Desplazados(vs, salto);
    AceptadasOrdenadas(ws, salto);
    var a := AceptadasDe(ws);
    forall i | 0 <= i < |a|
      ensures vs[a[i].linea - 1] == ws[a[i].linea - salto - 1]
    {
    }
  }

  /**
   * The rejected rows after the first `salto` verdicts: each sits at its
   * line's verdict, past the skipped ones, and they come in line order.
   */
  lemma RepartoRechazadas(vs: seq<Veredicto>, salto: nat)
    requires salto <= |vs| && Numerados(vs, 0)
    ensures forall i :: 0 <= i < |RechazadasDe(vs[salto..])| ==>
              && salto < RechazadasDe(vs[salto..])[i].linea <= |vs|
              && vs[RechazadasDe(vs[salto..])[i].linea - 1] == Rechaza(RechazadasDe(vs[salto..])[i])
    ensures forall i, j :: 0 <= i < j < |RechazadasDe(vs[salto..])| ==> RechazadasDe(vs[salto..])[i].linea < RechazadasDe(vs[salto..])[j].linea
  {
    var ws := vs[salto..];
    Desplazados(vs, salto);
    RechazadasOrdenadas(ws, salto);
    var x := RechazadasDe(ws);
    forall i | 0 <= i < |x|
      ensures vs[x[i].linea - 1] == ws[x[i].linea - salto - 1]
    {
    }
  }

  /** No verdict after the first `salto` is lost: its row is in the list of its kind. */
  lemma RepartoCompleto(vs: seq<Veredicto>, salto: nat)
    requires salto <= |vs|
    ensures forall n :: salto <= n < |vs| && vs[n].Acepta? ==> vs[n].a in AceptadasDe(vs[salto..])
    ensures forall n :: salto <= n < |vs| && vs[n].Rechaza? ==> vs[n].x in RechazadasDe(vs[salto..])
  {
    var ws := vs[salto..];
    ReparteTodo(ws);
    assert forall n :: salto <= n < |vs| ==> vs[n] == ws[n - salto];
  }

  /** Every accepted verdict's row is among the accepted rows, every rejected one's among the rejected. */
  lemma {:induction false} ReparteTodo(ws: seq<Veredicto>)
    ensures forall n :: 0 <= n < |ws| && ws[n].Acepta? ==> ws[n].a in AceptadasDe(ws)
    ensures forall n :: 0 <= n < |ws| && ws[n].Rechaza? ==> ws[n].x in RechazadasDe(ws)
    decreases |ws|
  {
    if |ws| > 0 {
      var init := ws[..|ws| - 1];
      ReparteTodo(init);
      forall n | 0 <= n < |init|
        ensures ws[n] == init[n]
      {
      }
    }
  }

  /** The body of the bulk-load request; every property may be missing. */
  datatype Pedido = Pedido(
    content: Option<string>,
    texto: Option<string>,
    usuario: Option<string>,
    usuarioRegistro: Option<string>,
    nombreArchivo: Option<string>,
    filename: Option<string>)

  /** `a || b || fallback` on optional text. */
  function Primero(a: Option<string>, b: Option<string>, fallback: string): (r: string)
    ensures TruthyStr(a) ==> r == a.value
    ensures !TruthyStr(a) && TruthyStr(b) ==> r == b.value
    ensures !TruthyStr(a) && !TruthyStr(b) ==> r == fallback
  {
    if TruthyStr(a) then a.value else if TruthyStr(b) then b.value else fallback
  }

  datatype DetalleEstado = DetalleAceptada | DetalleRechazada {
    function Name(): string {
      match this
      case DetalleAceptada => "ACEPTADA"
      case DetalleRechazada => "RECHAZADA"
    }
  }

  /** A row of CARGA_CLIENTES_DETALLE. */
  datatype Detalle = Detalle(
    linea: nat,
    idLog: int,
    estado: DetalleEstado,
    descripcionError: Option<string>,
    ci: Num,
    nombre: Option<string>,
    telefono: Option<string>)

  /** A row of LOG_CARGA_CLIENTES. */
  datatype LogCarga = LogCarga(id: int, nombreArchivo: string, usuario: string, validos: nat, rechazados: nat)

  /** One rejected line as the reply reports it. */
  datatype Observacion = Observacion(linea: nat, ci: Option<string>, motivo: string, contenido: string)

  datatype Resumen = Resumen(total: nat, aceptados: nat, rechazados: nat, detalles: seq<Observacion>, idLog: int)

  /** What a load produces: the reply, the log row, the detail rows, and the borrower rows to insert. */
  datatype Resultado = Resultado(resumen: Resumen, log: LogCarga, registros: seq<Detalle>, filas: seq<FilaAceptada>)

  /** The detail row of an accepted line. */
  function DetalleDeAceptada(idLog: int, a: FilaAceptada, num: string -> Num): (d: Detalle)
    ensures d.estado == DetalleAceptada && d.descripcionError.None? && d.idLog == idLog
    ensures d.linea == a.linea && d.ci == num(a.ci) && d.telefono == Some(a.telefono)
  {
    Detalle(a.linea, idLog, DetalleAceptada, None, num(a.ci), Some(a.nombre), Some(a.telefono))
  }

  /**
   * The detail row of a rejected line: the CI is stored as 0 when it is
   * missing or not a number, the telephone is cut to twenty characters.
   */
  function DetalleDeRechazada(idLog: int, x: FilaRechazada, num: string -> Num): (d: Detalle)
    ensures d.estado == DetalleRechazada && d.idLog == idLog && d.linea == x.linea
    ensures d.descripcionError == Some(x.motivo.Descripcion())
    ensures !d.ci.NaN?
    ensures x.ci.None? || num(x.ci.value).NaN? ==> d.ci == Finite(0.0)
    ensures x.ci.Some? && !num(x.ci.value).NaN? ==> d.ci == num(x.ci.value)
    ensures d.telefono.Some? <==> x.telefono.Some?
    ensures d.telefono.Some? ==> |d.telefono.value| <= MaxTelefono && StartsWith(x.telefono.value, d.telefono.value)
    ensures x.telefono.Some? && |x.telefono.value| <= MaxTelefono ==> d.telefono == x.telefono
  {
    var ci := if x.ci.Some? && !num(x.ci.value).NaN? then num(x.ci.value) else Finite(0.0);
    var tel := match x.telefono
      case Some(t) => Some(if |t| <= MaxTelefono then t else t[..MaxTelefono])
      case None => None;
    Detalle(x.linea, idLog, DetalleRechazada, Some(x.motivo.Descripcion()), ci, x.nombre, tel)
  }

  /** The detail rows of a load: the accepted lines', then the rejected lines'. */
  function Registros(idLog: int, aceptadas: seq<FilaAceptada>, rechazadas: seq<FilaRechazada>, num: string -> Num): (r: seq<Detalle>)
    ensures |r| == |aceptadas| + |rechazadas|
    ensures forall i :: 0 <= i < |aceptadas| ==> r[i] == DetalleDeAceptada(idLog, aceptadas[i], num)
    ensures forall i :: 0 <= i < |rechazadas| ==> r[|aceptadas| + i] == DetalleDeRechazada(idLog, rechazadas[i], num)
  {
    seq(|aceptadas|, i requires 0 <= i < |aceptadas| => DetalleDeAceptada(idLog, aceptadas[i], num))
    + seq(|rechazadas|, i requires 0 <= i < |rechazadas| => DetalleDeRechazada(idLog, rechazadas[i], num))
  }

  /** What the reply reports of each rejected line, in the same order. */
  function Observaciones(rechazadas: seq<FilaRechazada>): (r: seq<Observacion>)
    ensures |r| == |rechazadas|
    ensures forall i :: 0 <= i < |r| ==>
              r[i] == Observacion(rechazadas[i].linea, rechazadas[i].ci, rechazadas[i].motivo.Descripcion(), rechazadas[i].contenido)
  {
    seq(|rechazadas|, i requires 0 <= i < |rechazadas| =>
      Observacion(rechazadas[i].linea, rechazadas[i].ci, rechazadas[i].motivo.Descripcion(), rechazadas[i].contenido))
  }

  /** The non-blank lines of a load's text. */
  function Lineas(texto: string): seq<string> {
    NonBlank(SplitLines(texto))
  }

  /**
   * What a load produces from the verdicts `vs` on its lines, the first
   * `salto` of them skipped: the counts in the reply and in the log row
   * `idLog`, the detail rows (the accepted lines', then the rejected
   * lines'), and the borrower rows to insert.
   */
  function Informe(vs: seq<Veredicto>, salto: nat, idLog: int, nombreArchivo: string, usuario: string, num: string -> Num): (res: Resultado)
    requires salto <= |vs|
    ensures res.resumen.total == res.resumen.aceptados + res.resumen.rechazados == |vs| - salto
    ensures res.resumen.aceptados == |res.filas| && res.resumen.rechazados == |res.resumen.detalles|
    ensures res.resumen.idLog == idLog
    ensures res.log == LogCarga(idLog, nombreArchivo, usuario, res.resumen.aceptados, res.resumen.rechazados)
    ensures |res.registros| == res.resumen.total
    ensures forall i :: 0 <= i < |res.registros| ==> res.registros[i].idLog == idLog
    ensures forall i :: 0 <= i < |res.registros| ==> (res.registros[i].estado == DetalleAceptada <==> i < res.resumen.aceptados)
    ensures forall i :: res.resumen.aceptados <= i < |res.registros| ==> !res.registros[i].ci.NaN?
  {
    var ws := vs[salto..];
    var a, x := AceptadasDe(ws), RechazadasDe(ws);
    PartirCuenta(ws);
    Resultado(Resumen(|vs| - salto, |a|, |x|, Observaciones(x), idLog),
              LogCarga(idLog, nombreArchivo, usuario, |a|, |x|),
              Registros(idLog, a, x, num),
              a)
  }

  /**
   * The rows a load inserts: each is the accepted verdict on its line, a
   * line past the skipped ones, it carries the loader, and the detail row
   * at the same position records the same line.
   */
  lemma InformeFilas(vs: seq<Veredicto>, salto: nat, idLog: int, nombreArchivo: string, usuario: string, num: string -> Num)
    requires salto <= |vs| && Numerados(vs, 0) && DelUsuario(vs, usuario)
    ensures var res := Informe(vs, salto, idLog, nombreArchivo, usuario, num);
            forall i :: 0 <= i < |res.filas| ==>
              && salto < res.filas[i].linea <= |vs|
              && vs[res.filas[i].linea - 1] == Acepta(res.filas[i])
              && res.filas[i].usuario == usuario
              && res.registros[i].linea == res.filas[i].linea
    ensures var res := Informe(vs, salto, idLog, nombreArchivo, usuario, num);
            forall i, j :: 0 <= i < j < |res.filas| ==> res.filas[i].linea < res.filas[j].linea
  {
    var ws := vs[salto..];
    var res := Informe(vs, salto, idLog, nombreArchivo, usuario, num);
    assert res.filas == AceptadasDe(ws);
    assert res.registros == Registros(idLog, AceptadasDe(ws), RechazadasDe(ws), num);
    RepartoAceptadas(vs, salto);
  }

  /**
   * The rejected lines a load reports: each is a line past the skipped
   * ones whose verdict is a rejection, they come in line order, and the
   * detail rows after the accepted ones record the same lines.
   */
  lemma InformeRechazos(vs: seq<Veredicto>, salto: nat, idLog: int, nombreArchivo: string, usuario: string, num: string -> Num)
    requires salto <= |vs| && Numerados(vs, 0)
    ensures var res := Informe(vs, salto, idLog, nombreArchivo, usuario, num);
            forall i :: 0 <= i < |res.resumen.detalles| ==>
              && salto < res.resumen.detalles[i].linea <= |vs|
              && vs[res.resumen.detalles[i].linea - 1].Rechaza?
              && res.registros[res.resumen.aceptados + i].linea == res.resumen.detalles[i].linea
    ensures var res := Informe(vs, salto, idLog, nombreArchivo, usuario, num);
            forall i, j :: 0 <= i < j < |res.resumen.detalles| ==> res.resumen.detalles[i].linea < res.resumen.detalles[j].linea
  {
    var ws := vs[salto..];
    var res := Informe(vs, salto, idLog, nombreArchivo, usuario, num);
    var x := RechazadasDe(ws);
    assert res.resumen.detalles == Observaciones(x);
    assert res.resumen.aceptados == |AceptadasDe(ws)|;
    assert res.registros == Registros(idLog, AceptadasDe(ws), x, num);
    RepartoRechazadas(vs, salto);
  }

  /**
   * No line past the skipped ones is lost: an accepted verdict's row is
   * among the rows to insert, and a rejected verdict's line is reported.
   */
  lemma InformeCompleto(vs: seq<Veredicto>, salto: nat, idLog: int, nombreArchivo: string, usuario: string, num: string -> Num)
    requires salto <= |vs|
    ensures var res := Informe(vs, salto, idLog, nombreArchivo, usuario, num);
            forall n :: salto <= n < |vs| && vs[n].Acepta? ==> vs[n].a in res.filas
    ensures var res := Informe(vs, salto, idLog, nombreArchivo, usuario, num);
            forall n :: salto <= n < |vs| && vs[n].Rechaza? ==>
              exists i :: 0 <= i < |res.resumen.detalles| && res.resumen.detalles[i].linea == vs[n].x.linea
  {
    var ws := vs[salto..];
    var res := Informe(vs, salto, idLog, nombreArchivo, usuario, num);
    var x := RechazadasDe(ws);
    assert res.filas == AceptadasDe(ws);
    assert res.resumen.detalles == Observaciones(x);
    RepartoCompleto(vs, salto);
    forall n | salto <= n < |vs| && vs[n].Rechaza?
      ensures exists i :: 0 <= i < |res.resumen.detalles| && res.resumen.detalles[i].linea == vs[n].x.linea
    {
      var i :| 0 <= i < |x| && x[i] == vs[n].x;
      assert res.resumen.detalles[i].linea == vs[n].x.linea;
    }
  }

  /**
   * `bulkLoad`: a request with neither `content` nor `texto` fails;
   * otherwise its non-blank lines are loaded under the loader (`usuario`,
   * `usuario_registro`, or "system") and file name (`nombre_archivo`,
   * `filename`, or "carga.csv").
   */
  method CargaMasiva(pedido: Pedido, idLog: int, num: string -> Num) returns (r: Result<Resultado, string>)
    ensures r.Err? <==> !TruthyStr(pedido.content) && !TruthyStr(pedido.texto)
    ensures r.Err? ==> r.error == SinContenido
    ensures r.Ok? ==>
              var lines := Lineas(Primero(pedido.content, pedido.texto, ""));
              var usuario := Primero(pedido.usuario, pedido.usuarioRegistro, "system");
              r.value == Informe(Veredictos(lines, usuario, num), Salto(lines), idLog,
                                 Primero(pedido.nombreArchivo, pedido.filename, "carga.csv"), usuario, num)
  {
    var text := Primero(pedido.content, pedido.texto, "");
    if text == "" {
      return Err(SinContenido);
    }
    var res := Cargar(Lineas(text), idLog, Primero(pedido.nombreArchivo, pedido.filename, "carga.csv"),
                      Primero(pedido.usuario, pedido.usuarioRegistro, "system"), num);
    r := Ok(res);
  }

  /**
   * The load of the non-blank `lines`: the verdict on each line, numbered
   * from 1, is sorted by the loop of `Partir` after the skipped header.
   */
  method Cargar(lines: seq<string>, idLog: int, nombreArchivo: string, usuario: string, num: string -> Num) returns (res: Resultado)
    ensures res == Informe(Veredictos(lines, usuario, num), Salto(lines), idLog, nombreArchivo, usuario, num)
  {
    var vs := Veredictos(lines, usuario, num);
    var total, aceptadas, rechazadas := Partir(vs, Salto(lines));
    var registros := Registros(idLog, aceptadas, rechazadas, num);
    var detalles := Observaciones(rechazadas);
    var resumen := Resumen(total, |aceptadas|, |rechazadas|, detalles, idLog);
    res := Resultado(resumen, LogCarga(idLog, nombreArchivo, usuario, |aceptadas|, |rechazadas|), registros, aceptadas);
  }

  /** The detail rows of one log, in the order they are listed. */
  function Grupo(detalles: seq<Detalle>, id: int): (r: seq<Detalle>)
    ensures forall i :: 0 <= i < |r| ==> r[i].idLog == id
    ensures forall d :: d in r <==> d in detalles && d.idLog == id
  {
    if |detalles| == 0 then []
    else
      var last := detalles[|detalles| - 1];
      assert detalles == detalles[..|detalles| - 1] + [last];
      Grupo(detalles[..|detalles| - 1], id) + (if last.idLog == id then [last] else [])
  }

  /** Listed ordered by (log, line), a log's detail rows come in line order. */
  lemma {:induction false} GrupoOrdenado(detalles: seq<Detalle>, id: int)
    requires forall i, j :: 0 <= i < j < |detalles| ==> LexLe((detalles[i].idLog, detalles[i].linea), (detalles[j].idLog, detalles[j].linea))
    ensures forall i, j :: 0 <= i < j < |Grupo(detalles, id)| ==> Grupo(detalles, id)[i].linea <= Grupo(detalles, id)[j].linea
    decreases |detalles|
  {
    if |detalles| > 0 {
      var n := |detalles| - 1;
      var init := detalles[..n];
      GrupoOrdenado(init, id);
      var g := Grupo(init, id);
      if detalles[n].idLog == id {
        forall i | 0 <= i < |g|
          ensures g[i].linea <= detalles[n].linea
        {
          assert g[i] in g;
          var j :| 0 <= j < |init| && init[j] == g[i];
          assert LexLe((detalles[j].idLog, detalles[j].linea), (detalles[n].idLog, detalles[n].linea));
        }
        assert Grupo(detalles, id) == g + [detalles[n]];
      } else {
        assert Grupo(detalles, id) == g;
      }
    }
  }

  /**
   * `getLoadLogs`: the detail rows are gathered into a map from log id to
   * the list of its rows, appending in listing order; each log is paired
   * with its list, or an empty one.
   */
  method LoadLogs(logs: seq<LogCarga>, detalles: seq<Detalle>) returns (r: seq<(LogCarga, seq<Detalle>)>)
    ensures |r| == |logs|
    ensures forall i :: 0 <= i < |r| ==> r[i].0 == logs[i] && r[i].1 == Grupo(detalles, logs[i].id)
  {
    var porLog: map<int, seq<Detalle>> := map[];
    var k := 0;
    while k < |detalles|
      invariant 0 <= k <= |detalles|
      invariant forall id :: id in porLog ==> porLog[id] == Grupo(detalles[..k], id)
      invariant forall id :: id !in porLog ==> Grupo(detalles[..k], id) == []
    {
      var d := detalles[k];
      assert detalles[..k + 1][..k] == detalles[..k];
      var previo := if d.idLog in porLog then porLog[d.idLog] else [];
      porLog := porLog[d.idLog := previo + [d]];
      k := k + 1;
    }
    assert detalles[..k] == detalles;
    r := seq(|logs|, i requires 0 <= i < |logs| =>
      (logs[i], if logs[i].id in porLog then porLog[logs[i].id] else []));
  }
}
