/** The booking routes of the `finalizada` variant (app/routes/equipamento.py).
    Reservations are kept after they are finalized; equipment status is never
    touched by a booking. */
module AppRoutes {
  import opened Common
  import opened AppModels
  import Ordering

  predicate TemReservas(reservas: map<int, Reserva>, equipamentoId: int) {
    exists rid | rid in reservas :: reservas[rid].equipamentoId == equipamentoId
  }

  /** The first step of nova_reserva that refuses the request, or None when the
      reservation is committed. A date missing from the form makes strptime raise
      TypeError and a missing client name fails the NOT NULL constraint at commit:
      neither is caught. */
  function Recusa(
    equipamentos: map<int, Equipamento>, reservas: map<int, Reserva>,
    equipamentoId: Option<int>, inicio: DateField, fim: DateField, clienteNome: Option<string>): Option<Outcome>
  {
    if inicio.Absent? then Some(ServerError)
    else if !inicio.Day? then Some(Invalid(BadDateFormat))
    else if fim.Absent? then Some(ServerError)
    else if !fim.Day? then Some(Invalid(BadDateFormat))
    else if inicio.day > fim.day then Some(Invalid(StartAfterEnd))
    else if equipamentoId.None? || equipamentoId.value !in equipamentos then Some(NotFound)
    else if !EstaDisponivel(reservas, equipamentoId.value, inicio.day, fim.day) then Some(Conflict)
    else if clienteNome.None? then Some(ServerError)
    else None
  }

  /** Two bookings of one item either share no day or one holds the other with a
      day to spare at each end. */
  predicate Aninhadas(a: Reserva, b: Reserva) {
    || a.dataFim < b.dataInicio
    || b.dataFim < a.dataInicio
    || ContemEstritamente(a, b.dataInicio, b.dataFim)
    || ContemEstritamente(b, a.dataInicio, a.dataFim)
  }

  /** What esta_disponivel does guarantee: the bookings of each item are
      pairwise disjoint or strictly nested. Overlap itself is not excluded. */
  ghost predicate Laminar(reservas: map<int, Reserva>) {
    forall r1, r2 | r1 in reservas && r2 in reservas && r1 != r2
      && reservas[r1].equipamentoId == reservas[r2].equipamentoId ::
      Aninhadas(reservas[r1], reservas[r2])
  }

  /** Every reservation names a stored item and has a well-ordered period. */
  ghost predicate Integra(equipamentos: map<int, Equipamento>, reservas: map<int, Reserva>) {
    forall rid | rid in reservas ::
      reservas[rid].equipamentoId in equipamentos && reservas[rid].dataInicio <= reservas[rid].dataFim
  }

  /** Adding a booking that esta_disponivel accepts keeps the bookings laminar. */
  lemma AceiteMantemLaminar(reservas: map<int, Reserva>, id: int, nova: Reserva)
    requires Laminar(reservas) && id !in reservas
    requires forall rid | rid in reservas :: reservas[rid].dataInicio <= reservas[rid].dataFim
    requires nova.dataInicio <= nova.dataFim
    requires EstaDisponivel(reservas, nova.equipamentoId, nova.dataInicio, nova.dataFim)
    ensures Laminar(reservas[id := nova])
  {
    var depois := reservas[id := nova];
    forall r1, r2 | r1 in depois && r2 in depois && r1 != r2
      && depois[r1].equipamentoId == depois[r2].equipamentoId
      ensures Aninhadas(depois[r1], depois[r2])
    {
      if r1 == id {
        assert !Within(reservas[r2].dataInicio, nova.dataInicio, nova.dataFim);
        assert !Within(reservas[r2].dataFim, nova.dataInicio, nova.dataFim);
      } else if r2 == id {
        assert !Within(reservas[r1].dataInicio, nova.dataInicio, nova.dataFim);
        assert !Within(reservas[r1].dataFim, nova.dataInicio, nova.dataFim);
      }
    }
  }

  /** The tables of the `finalizada` variant, with their id sequences. */
  class Db {
    var equipamentos: map<int, Equipamento>
    var reservas: map<int, Reserva>
    var proximoEquipamentoId: int
    var proximaReservaId: int

    ghost predicate Valid()
      reads this
    {
      && Integra(equipamentos, reservas)
      && Laminar(reservas)
      && (forall id | id in equipamentos :: id < proximoEquipamentoId)
      && (forall id | id in reservas :: id < proximaReservaId)
    }

    constructor ()
      ensures Valid()
      ensures equipamentos == map[] && reservas == map[]
    {
      equipamentos, reservas := map[], map[];
      proximoEquipamentoId, proximaReservaId := 1, 1;
    }

    /** novo_equipamento (administrators only): no check on the name, which the
        NOT NULL constraint alone refuses; the status defaults to 'disponivel'. */
    method NovoEquipamento(admin: bool, nome: Option<string>, descricao: Option<string>, status: Option<string>)
      returns (o: Outcome)
      requires Valid()
      modifies this
      ensures Valid()
      ensures reservas == old(reservas) && proximaReservaId == old(proximaReservaId)
      ensures !admin ==> o == Forbidden && unchanged(this)
      ensures admin && nome.None? ==> o == ServerError && unchanged(this)
      ensures admin && nome.Some? ==>
        && o == Ok(old(proximoEquipamentoId))
        && o.id !in old(equipamentos)
        && equipamentos == old(equipamentos)[o.id := AppModels.NovoEquipamento(nome.value, descricao, status)]
        && proximoEquipamentoId == old(proximoEquipamentoId) + 1
    {
      if !admin {
        return Forbidden;
      }
      if nome.None? {
        return ServerError;
      }
      var id := proximoEquipamentoId;
      equipamentos := equipamentos[id := AppModels.NovoEquipamento(nome.value, descricao, status)];
      proximoEquipamentoId := proximoEquipamentoId + 1;
      o := Ok(id);
    }

    /** excluir_equipamento (administrators only): refused while the item has any
        reservation, finalized ones included. */
    method ExcluirEquipamento(admin: bool, id: int) returns (o: Outcome)
      requires Valid()
      modifies this
      ensures Valid()
      ensures !admin ==> o == Forbidden && unchanged(this)
      ensures admin && id !in old(equipamentos) ==> o == NotFound && unchanged(this)
      ensures admin && id in old(equipamentos) && TemReservas(old(reservas), id) ==>
        o == HasReservations && unchanged(this)
      ensures admin && id in old(equipamentos) && !TemReservas(old(reservas), id) ==>
        && o == Ok(id)
        && equipamentos == old(equipamentos) - {id}
        && reservas == old(reservas)
        && proximoEquipamentoId == old(proximoEquipamentoId) && proximaReservaId == old(proximaReservaId)
    {
      if !admin {
        return Forbidden;
      }
      if id !in equipamentos {
        return NotFound;
      }
      if TemReservas(reservas, id) {
        return HasReservations;
      }
      equipamentos := equipamentos - {id};
      o := Ok(id);
    }

    /** nova_reserva: parse, order check, lookup, availability, then one new
        unfinalized reservation; equipment is not touched. */
    method NovaReserva(
      equipamentoId: Option<int>, inicio: DateField, fim: DateField,
      clienteNome: Option<string>, clienteContato: Option<string>)
      returns (o: Outcome)
      requires Valid()
      modifies this
      ensures Valid()
      ensures equipamentos == old(equipamentos) && proximoEquipamentoId == old(proximoEquipamentoId)
      ensures Recusa(old(equipamentos), old(reservas), equipamentoId, inicio, fim, clienteNome).Some? ==>
        && o == Recusa(old(equipamentos), old(reservas), equipamentoId, inicio, fim, clienteNome).value
        && unchanged(this)
      ensures Recusa(old(equipamentos), old(reservas), equipamentoId, inicio, fim, clienteNome).None? ==>
        && o == Ok(old(proximaReservaId))
        && o.id !in old(reservas)
        && reservas == old(reservas)[o.id :=
             AppModels.NovaReserva(equipamentoId.value, clienteNome.value, clienteContato, inicio.day, fim.day)]
        && proximaReservaId == old(proximaReservaId) + 1
    {
      if inicio.Absent? {
        return ServerError;
      }
      if !inicio.Day? {
        return Invalid(BadDateFormat);
      }
      if fim.Absent? {
        return ServerError;
      }
      if !fim.Day? {
        return Invalid(BadDateFormat);
      }
      if inicio.day > fim.day {
        return Invalid(StartAfterEnd);
      }
      if equipamentoId.None? || equipamentoId.value !in equipamentos {
        return NotFound;
      }
      var eid := equipamentoId.value;
      if !EstaDisponivel(reservas, eid, inicio.day, fim.day) {
        return Conflict;
      }
      if clienteNome.None? {
        return ServerError;
      }
      var id := proximaReservaId;
      var nova := AppModels.NovaReserva(eid, clienteNome.value, clienteContato, inicio.day, fim.day);
      AceiteMantemLaminar(reservas, id, nova);
      reservas := reservas[id := nova];
      proximaReservaId := proximaReservaId + 1;
      o := Ok(id);
    }

    /** finalizar_reserva: marks the reservation finalized, once. */
    method FinalizarReserva(id: int) returns (o: Outcome)
      requires Valid()
      modifies this
      ensures Valid()
      ensures id !in old(reservas) ==> o == NotFound && unchanged(this)
      ensures id in old(reservas) && old(reservas)[id].finalizada ==> o == AlreadyFinalized && unchanged(this)
      ensures id in old(reservas) && !old(reservas)[id].finalizada ==>
        && o == Ok(id)
        && reservas == old(reservas)[id := old(reservas)[id].(finalizada := true)]
        && equipamentos == old(equipamentos)
        && proximoEquipamentoId == old(proximoEquipamentoId) && proximaReservaId == old(proximaReservaId)
    {
      if id !in reservas {
        return NotFound;
      }
      var reserva := reservas[id];
      if reserva.finalizada {
        return AlreadyFinalized;
      }
      reservas := reservas[id := reserva.(finalizada := true)];
      o := Ok(id);
    }

    /** excluir_reserva (administrators only): deletes the reservation, finalized or not. */
    method ExcluirReserva(admin: bool, id: int) returns (o: Outcome)
      requires Valid()
      modifies this
      ensures Valid()
      ensures !admin ==> o == Forbidden && unchanged(this)
      ensures admin && id !in old(reservas) ==> o == NotFound && unchanged(this)
      ensures admin && id in old(reservas) ==>
        && o == Ok(id)
        && reservas == old(reservas) - {id}
        && equipamentos == old(equipamentos)
        && proximoEquipamentoId == old(proximoEquipamentoId) && proximaReservaId == old(proximaReservaId)
    {
      if !admin {
        return Forbidden;
      }
      if id !in reservas {
        return NotFound;
      }
      reservas := reservas - {id};
      o := Ok(id);
    }
  }

  // ---------------------------------------------------------------------------
  // Dashboard and booking-form queries. `linhas` is the order in which a table
  // yields its rows; ORDER BY reorders them by the key.

  /** A full scan of a table: every row exactly once. */
  predicate Varredura<V>(tabela: map<int, V>, linhas: seq<int>) {
    && (forall i | 0 <= i < |linhas| :: linhas[i] in tabela)
    && (forall id | id in tabela :: id in linhas)
    && Ordering.Distinct(linhas)
  }

  /** The (id, name) rows of equipment not under maintenance, in scan order. */
  function Reservaveis(equipamentos: map<int, Equipamento>, linhas: seq<int>): (ps: seq<(int, string)>)
    requires forall i | 0 <= i < |linhas| :: linhas[i] in equipamentos
    ensures forall p | p in ps :: p.0 in linhas && equipamentos[p.0].status != MANUTENCAO && p.1 == equipamentos[p.0].nome
    ensures forall id | id in linhas && equipamentos[id].status != MANUTENCAO :: (id, equipamentos[id].nome) in ps
  {
    if linhas == [] then []
    else
      var resto := Reservaveis(equipamentos, linhas[1..]);
      assert forall id | id in linhas[1..] :: id in linhas;
      assert forall id | id in linhas :: id == linhas[0] || id in linhas[1..];
      var e := equipamentos[linhas[0]];
      if e.status != MANUTENCAO then [(linhas[0], e.nome)] + resto else resto
  }

  /** A scan that repeats no row yields each offered item once. */
  lemma {:induction false} ReservaveisDistintas(equipamentos: map<int, Equipamento>, linhas: seq<int>)
    requires forall i | 0 <= i < |linhas| :: linhas[i] in equipamentos
    requires Ordering.Distinct(linhas)
    ensures Ordering.Distinct(Ordering.Ids(Reservaveis(equipamentos, linhas)))
  {
    if linhas != [] {
      Ordering.DistinctTail(linhas);
      ReservaveisDistintas(equipamentos, linhas[1..]);
      Ordering.ConsDistinct((linhas[0], equipamentos[linhas[0]].nome), Reservaveis(equipamentos, linhas[1..]));
    }
  }

  /** The items the booking form offers: each item whose status is not
      'manutencao', once, by name. */
  function OpcoesNovaReserva(equipamentos: map<int, Equipamento>, linhas: seq<int>): (ids: seq<int>)
    requires Varredura(equipamentos, linhas)
    ensures forall id :: id in ids <==> id in equipamentos && equipamentos[id].status != MANUTENCAO
    ensures forall i | 0 <= i < |ids| :: ids[i] in equipamentos
    ensures Ordering.Distinct(ids)
    ensures |ids| == |set id | id in equipamentos && equipamentos[id].status != MANUTENCAO|
    ensures forall i | 0 <= i < |ids| - 1 ::
              Ordering.TextLe(equipamentos[ids[i]].nome, equipamentos[ids[i + 1]].nome)
  {
    OpcoesOrdenadas(equipamentos, linhas);
    OpcoesDistintas(equipamentos, linhas);
    var ids := OrdemPorNome(equipamentos, linhas);
    assert forall id | id in equipamentos :: id in linhas;
    Ordering.DistinctCount(ids, set id | id in equipamentos && equipamentos[id].status != MANUTENCAO);
    ids
  }

  /** `ORDER BY nome` applied to the offered rows. */
  function OrdemPorNome(equipamentos: map<int, Equipamento>, linhas: seq<int>): seq<int>
    requires forall i | 0 <= i < |linhas| :: linhas[i] in equipamentos
  {
    Ordering.TextOrderTotal();
    Ordering.Ids(Ordering.SortBy(Reservaveis(equipamentos, linhas), Ordering.TextLe))
  }

  /** A scan that repeats no row offers no item twice. */
  lemma OpcoesDistintas(equipamentos: map<int, Equipamento>, linhas: seq<int>)
    requires forall i | 0 <= i < |linhas| :: linhas[i] in equipamentos
    requires Ordering.Distinct(linhas)
    ensures Ordering.Distinct(OrdemPorNome(equipamentos, linhas))
  {
    Ordering.TextOrderTotal();
    var ps := Reservaveis(equipamentos, linhas);
    ReservaveisDistintas(equipamentos, linhas);
    Ordering.PermutationKeepsDistinct(ps, Ordering.SortBy(ps, Ordering.TextLe));
  }

  /** Sorting the offered rows by name keeps exactly the scanned items not under
      maintenance. */
  lemma OpcoesOrdenadas(equipamentos: map<int, Equipamento>, linhas: seq<int>)
    requires forall i | 0 <= i < |linhas| :: linhas[i] in equipamentos
    ensures var ids := OrdemPorNome(equipamentos, linhas);
      && (forall id :: id in ids <==> id in linhas && equipamentos[id].status != MANUTENCAO)
      && (forall i | 0 <= i < |ids| :: ids[i] in equipamentos)
      && (forall i | 0 <= i < |ids| - 1 ::
            Ordering.TextLe(equipamentos[ids[i]].nome, equipamentos[ids[i + 1]].nome))
  {
    Ordering.TextOrderTotal();
    var ps := Reservaveis(equipamentos, linhas);
    var ordenados := Ordering.SortBy(ps, Ordering.TextLe);
    Ordering.SameRows(ps, ordenados);
    var ids := Ordering.Ids(ordenados);
    assert ids == OrdemPorNome(equipamentos, linhas);
    forall i | 0 <= i < |ids|
      ensures ids[i] in linhas && equipamentos[ids[i]].status != MANUTENCAO && equipamentos[ids[i]].nome == ordenados[i].1
    {
      assert ordenados[i] in ps;
    }
    forall id | id in linhas && equipamentos[id].status != MANUTENCAO ensures id in ids {
      assert (id, equipamentos[id].nome) in ordenados;
      var i :| 0 <= i < |ordenados| && ordenados[i] == (id, equipamentos[id].nome);
      assert ids[i] == id;
    }
  }

  /** The (id, start) rows of reservations not finalized, in scan order. */
  function Ativas(reservas: map<int, Reserva>, linhas: seq<int>): (ps: seq<(int, int)>)
    requires forall i | 0 <= i < |linhas| :: linhas[i] in reservas
    ensures |ps| <= |linhas|
    ensures forall p | p in ps :: p.0 in linhas && !reservas[p.0].finalizada && p.1 == reservas[p.0].dataInicio
    ensures forall id | id in linhas && !reservas[id].finalizada :: (id, reservas[id].dataInicio) in ps
  {
    if linhas == [] then []
    else
      var resto := Ativas(reservas, linhas[1..]);
      assert forall id | id in linhas[1..] :: id in linhas;
      assert forall id | id in linhas :: id == linhas[0] || id in linhas[1..];
      var r := reservas[linhas[0]];
      if !r.finalizada then [(linhas[0], r.dataInicio)] + resto else resto
  }

  /** A scan that repeats no row yields each unfinalized booking once. */
  lemma {:induction false} AtivasDistintas(reservas: map<int, Reserva>, linhas: seq<int>)
    requires forall i | 0 <= i < |linhas| :: linhas[i] in reservas
    requires Ordering.Distinct(linhas)
    ensures Ordering.Distinct(Ordering.Ids(Ativas(reservas, linhas)))
  {
    if linhas != [] {
      Ordering.DistinctTail(linhas);
      AtivasDistintas(reservas, linhas[1..]);
      Ordering.ConsDistinct((linhas[0], reservas[linhas[0]].dataInicio), Ativas(reservas, linhas[1..]));
    }
  }

  /** What the dashboard shows. */
  datatype Painel = Painel(
    totalEquipamentos: int,
    equipamentosDisponiveis: set<int>,
    reservasAtivas: set<int>,
    ultimasReservas: seq<int>)

  /** dashboard: the item count, the items marked 'disponivel', the unfinalized
      reservations, and the five of those that start first, by start date. */
  function Dashboard(equipamentos: map<int, Equipamento>, reservas: map<int, Reserva>, linhas: seq<int>): (p: Painel)
    requires Varredura(reservas, linhas)
    ensures p.totalEquipamentos == |equipamentos|
    ensures forall id :: id in p.equipamentosDisponiveis <==> id in equipamentos && equipamentos[id].status == DISPONIVEL
    ensures forall id :: id in p.reservasAtivas <==> id in reservas && !reservas[id].finalizada
    ensures |p.ultimasReservas| == if |p.reservasAtivas| < 5 then |p.reservasAtivas| else 5
    ensures forall i | 0 <= i < |p.ultimasReservas| ::
              p.ultimasReservas[i] in reservas && !reservas[p.ultimasReservas[i]].finalizada
    ensures Ordering.Distinct(p.ultimasReservas)
    ensures forall i | 0 <= i < |p.ultimasReservas| - 1 ::
              reservas[p.ultimasReservas[i]].dataInicio <= reservas[p.ultimasReservas[i + 1]].dataInicio
    ensures forall id | id in reservas && !reservas[id].finalizada && id !in p.ultimasReservas ::
              forall i | 0 <= i < |p.ultimasReservas| ::
                reservas[p.ultimasReservas[i]].dataInicio <= reservas[id].dataInicio
  {
    PrimeirasPorInicioOrdenadas(reservas, linhas);
    PrimeirasPorInicioMinimas(reservas, linhas);
    PrimeirasPorInicioDistintas(reservas, linhas);
    AtivasContagem(reservas, linhas);
    var disponiveis := set id | id in equipamentos && equipamentos[id].status == DISPONIVEL;
    var ativas := set id | id in reservas && !reservas[id].finalizada;
    Painel(|equipamentos|, disponiveis, ativas, PrimeirasPorInicio(reservas, linhas))
  }

  /** `filter_by(finalizada=False).order_by(data_inicio).limit(5)`. */
  function PrimeirasPorInicio(reservas: map<int, Reserva>, linhas: seq<int>): seq<int>
    requires forall i | 0 <= i < |linhas| :: linhas[i] in reservas
  {
    Ordering.IntOrderTotal();
    var ordenadas := Ordering.SortBy(Ativas(reservas, linhas), Ordering.IntLe);
    Ordering.Ids(ordenadas[..if |ordenadas| < 5 then |ordenadas| else 5])
  }

  /** The listed bookings: as many as five allows, each an unfinalized booking,
      none twice, by start date. */
  lemma PrimeirasPorInicioOrdenadas(reservas: map<int, Reserva>, linhas: seq<int>)
    requires forall i | 0 <= i < |linhas| :: linhas[i] in reservas
    ensures var ultimas := PrimeirasPorInicio(reservas, linhas);
      var n := |Ativas(reservas, linhas)|;
      && |ultimas| == (if n < 5 then n else 5)
      && (forall i | 0 <= i < |ultimas| :: ultimas[i] in reservas && !reservas[ultimas[i]].finalizada)
      && (forall i | 0 <= i < |ultimas| - 1 ::
            reservas[ultimas[i]].dataInicio <= reservas[ultimas[i + 1]].dataInicio)
  {
    Ordering.IntOrderTotal();
    var ps := Ativas(reservas, linhas);
    var ordenadas := Ordering.SortBy(ps, Ordering.IntLe);
    Ordering.SameRows(ps, ordenadas);
    var n := if |ordenadas| < 5 then |ordenadas| else 5;
    var ultimas := Ordering.Ids(ordenadas[..n]);
    assert ultimas == PrimeirasPorInicio(reservas, linhas);
    forall i | 0 <= i < n
      ensures ultimas[i] in linhas && !reservas[ultimas[i]].finalizada && reservas[ultimas[i]].dataInicio == ordenadas[i].1
    {
      assert ordenadas[..n][i] == ordenadas[i];
      assert ordenadas[i] in ps;
    }
    forall i | 0 <= i < n - 1
      ensures reservas[ultimas[i]].dataInicio <= reservas[ultimas[i + 1]].dataInicio
    {
      assert Ordering.IntLe(ordenadas[i].1, ordenadas[i + 1].1);
    }
  }

  /** A scan that repeats no row lists no booking twice. */
  lemma PrimeirasPorInicioDistintas(reservas: map<int, Reserva>, linhas: seq<int>)
    requires forall i | 0 <= i < |linhas| :: linhas[i] in reservas
    requires Ordering.Distinct(linhas)
    ensures Ordering.Distinct(PrimeirasPorInicio(reservas, linhas))
  {
    Ordering.IntOrderTotal();
    var ps := Ativas(reservas, linhas);
    var ordenadas := Ordering.SortBy(ps, Ordering.IntLe);
    var n := if |ordenadas| < 5 then |ordenadas| else 5;
    AtivasDistintas(reservas, linhas);
    Ordering.PermutationKeepsDistinct(ps, ordenadas);
    Ordering.PrefixDistinct(ordenadas, n);
  }

  /** A full scan yields one row per unfinalized booking. */
  lemma AtivasContagem(reservas: map<int, Reserva>, linhas: seq<int>)
    requires Varredura(reservas, linhas)
    ensures |Ativas(reservas, linhas)| == |set id | id in reservas && !reservas[id].finalizada|
  {
    var ativas := set id | id in reservas && !reservas[id].finalizada;
    var ps := Ativas(reservas, linhas);
    var pids := Ordering.Ids(ps);
    AtivasDistintas(reservas, linhas);
    forall id ensures id in pids <==> id in ativas {
      if id in pids {
        var k :| 0 <= k < |pids| && pids[k] == id;
        assert ps[k] in ps;
      }
      if id in ativas {
        assert id in linhas;
        assert (id, reservas[id].dataInicio) in ps;
        var k :| 0 <= k < |ps| && ps[k] == (id, reservas[id].dataInicio);
        assert pids[k] == id;
      }
    }
    Ordering.DistinctCount(pids, ativas);
  }

  /** No unfinalized booking left off the list starts before a listed one. */
  lemma PrimeirasPorInicioMinimas(reservas: map<int, Reserva>, linhas: seq<int>)
    requires forall i | 0 <= i < |linhas| :: linhas[i] in reservas
    requires forall id | id in reservas :: id in linhas
    ensures var ultimas := PrimeirasPorInicio(reservas, linhas);
      && (forall i | 0 <= i < |ultimas| :: ultimas[i] in reservas)
      && forall id | id in reservas && !reservas[id].finalizada && id !in ultimas ::
        forall i | 0 <= i < |ultimas| :: reservas[ultimas[i]].dataInicio <= reservas[id].dataInicio
  {
    Ordering.IntOrderTotal();
    var ps := Ativas(reservas, linhas);
    var ordenadas := Ordering.SortBy(ps, Ordering.IntLe);
    Ordering.SameRows(ps, ordenadas);
    var n := if |ordenadas| < 5 then |ordenadas| else 5;
    var ultimas := Ordering.Ids(ordenadas[..n]);
    assert ultimas == PrimeirasPorInicio(reservas, linhas);
    forall id | id in reservas && !reservas[id].finalizada && id !in ultimas
      ensures forall i | 0 <= i < n :: ordenadas[i].1 <= reservas[id].dataInicio
    {
      assert (id, reservas[id].dataInicio) in ordenadas;
      Ordering.PrefixLeast(ordenadas, n, (id, reservas[id].dataInicio));
    }
    forall i | 0 <= i < n ensures ultimas[i] in reservas && reservas[ultimas[i]].dataInicio == ordenadas[i].1 {
      assert ordenadas[..n][i] == ordenadas[i];
      assert ordenadas[i] in ps;
    }
  }

  // ---------------------------------------------------------------------------
  // Scenarios.

  /** A tent booked by Alice for days 100-102: Bob cannot take days 102-104,
      since the shared day 102 is caught, but can take days 103-104. */
  method CenarioBarraca() returns (alice: Outcome, bobPartilha: Outcome, bobSeguinte: Outcome)
    ensures alice.Ok?
    ensures bobPartilha == Conflict
    ensures bobSeguinte.Ok? && bobSeguinte.id != alice.id
  {
    var db := new Db();
    var barraca := db.NovoEquipamento(true, Some("Tent-A"), None, None);
    alice := db.NovaReserva(Some(barraca.id), Day(100), Day(102), Some("Alice"), None);
    bobPartilha := db.NovaReserva(Some(barraca.id), Day(102), Day(104), Some("Bob"), None);
    bobSeguinte := db.NovaReserva(Some(barraca.id), Day(103), Day(104), Some("Bob"), None);
  }

  /** A second finalize of Alice's booking only warns, and the finalized booking
      still blocks its first day. */
  method CenarioFinalizacao() returns (alice: Outcome, fim1: Outcome, fim2: Outcome, depois: Outcome)
    ensures alice.Ok?
    ensures fim1 == Ok(alice.id) && fim2 == AlreadyFinalized
    ensures depois == Conflict
  {
    var db := new Db();
    var barraca := db.NovoEquipamento(true, Some("Tent-A"), None, None);
    alice := db.NovaReserva(Some(barraca.id), Day(100), Day(102), Some("Alice"), None);
    fim1 := db.FinalizarReserva(alice.id);
    fim2 := db.FinalizarReserva(alice.id);
    depois := db.NovaReserva(Some(barraca.id), Day(100), Day(100), Some("Carol"), None);
  }

  /** The item can be double-booked: days 103-105 are accepted inside a booking of days 100-110. */
  method CenarioReservaAninhada() returns (primeira: Outcome, segunda: Outcome, sobrepostas: bool)
    ensures primeira.Ok? && segunda.Ok? && primeira.id != segunda.id
    ensures sobrepostas
  {
    var db := new Db();
    var barraca := db.NovoEquipamento(true, Some("Tent-A"), None, None);
    primeira := db.NovaReserva(Some(barraca.id), Day(100), Day(110), Some("Alice"), None);
    segunda := db.NovaReserva(Some(barraca.id), Day(103), Day(105), Some("Bob"), None);
    sobrepostas := Sobrepoe(db.reservas[primeira.id], db.reservas[segunda.id].dataInicio, db.reservas[segunda.id].dataFim);
  }
}
