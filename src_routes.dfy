/** The booking routes of the explicit-status variant (src/routes/equipamento.py).
    A booking marks its equipment 'reservado'; finalizing or deleting the booking
    deletes the row and marks the equipment 'disponivel' again. */
module SrcRoutes {
  import opened Common
  import opened SrcModels

  /** The conflict filter of nova_reserva: the stored period meets [ini, fim],
      a shared end day included. */
  predicate Sobrepoe(r: Reserva, ini: int, fim: int) {
    r.dataInicio <= fim && r.dataFim >= ini
  }

  predicate HaConflito(reservas: map<int, Reserva>, equipamentoId: int, ini: int, fim: int) {
    exists rid | rid in reservas ::
      reservas[rid].equipamentoId == equipamentoId && Sobrepoe(reservas[rid], ini, fim)
  }

  predicate TemReservas(reservas: map<int, Reserva>, equipamentoId: int) {
    exists rid | rid in reservas :: reservas[rid].equipamentoId == equipamentoId
  }

  /** Python truthiness of an optional form field. */
  predicate Preenchido(s: Option<string>) {
    s.Some? && s.value != ""
  }

  predicate DataPreenchida(f: DateField) {
    f.Malformed? || f.Day?
  }

  /** The first guard of nova_reserva that refuses the request, or None when it passes them all. */
  function Recusa(
    equipamentos: map<int, Equipamento>, reservas: map<int, Reserva>,
    equipamentoId: Option<int>, inicio: DateField, fim: DateField,
    clienteNome: Option<string>, hoje: int): Option<Outcome>
  {
    if equipamentoId.None? || !DataPreenchida(inicio) || !DataPreenchida(fim) || !Preenchido(clienteNome) then
      Some(Invalid(MissingFields))
    else if !inicio.Day? || !fim.Day? then Some(Invalid(BadDateFormat))
    else if inicio.day > fim.day then Some(Invalid(StartAfterEnd))
    else if inicio.day < hoje then Some(Invalid(StartInPast))
    else if equipamentoId.value !in equipamentos then Some(NotFound)
    else if !EstaDisponivel(equipamentos[equipamentoId.value]) then Some(Unavailable)
    else if HaConflito(reservas, equipamentoId.value, inicio.day, fim.day) then Some(Conflict)
    else None
  }

  /** What the routes keep true of the tables: every reservation names a stored
      equipment, its period is well ordered, its equipment is marked 'reservado',
      and no equipment has two reservations. */
  ghost predicate Consistente(equipamentos: map<int, Equipamento>, reservas: map<int, Reserva>) {
    && (forall rid | rid in reservas ::
          && reservas[rid].equipamentoId in equipamentos
          && equipamentos[reservas[rid].equipamentoId].status == RESERVADO
          && reservas[rid].dataInicio <= reservas[rid].dataFim)
    && (forall r1, r2 | r1 in reservas && r2 in reservas
          && reservas[r1].equipamentoId == reservas[r2].equipamentoId :: r1 == r2)
  }

  /** No equipment is booked twice for days that meet. */
  ghost predicate SemDuplaReserva(reservas: map<int, Reserva>) {
    forall r1, r2 | r1 in reservas && r2 in reservas && r1 != r2
      && reservas[r1].equipamentoId == reservas[r2].equipamentoId ::
      !Sobrepoe(reservas[r1], reservas[r2].dataInicio, reservas[r2].dataFim)
  }

  lemma ConsistenteSemDuplaReserva(equipamentos: map<int, Equipamento>, reservas: map<int, Reserva>)
    requires Consistente(equipamentos, reservas)
    ensures SemDuplaReserva(reservas)
  {
  }

  /** Equipment that passes the status check has no reservation at all, so the
      date filter that follows it can never refuse a request. */
  lemma DisponivelSemConflito(
    equipamentos: map<int, Equipamento>, reservas: map<int, Reserva>, equipamentoId: int, ini: int, fim: int)
    requires Consistente(equipamentos, reservas)
    requires equipamentoId in equipamentos && EstaDisponivel(equipamentos[equipamentoId])
    ensures !TemReservas(reservas, equipamentoId)
    ensures !HaConflito(reservas, equipamentoId, ini, fim)
  {
  }

  /** The tables of the explicit-status variant, with their id sequences. */
  class Db {
    var equipamentos: map<int, Equipamento>
    var reservas: map<int, Reserva>
    var proximoEquipamentoId: int
    var proximaReservaId: int

    ghost predicate Valid()
      reads this
    {
      && Consistente(equipamentos, reservas)
      && (forall id | id in equipamentos :: id < proximoEquipamentoId)
      && (forall id | id in reservas :: id < proximaReservaId)
    }

    constructor ()
      ensures Valid()
      ensures equipamentos == map[] && reservas == map[]
    {
      equipamentos, reservas := map[], map[];
      proximoEquipamentoId, proximaReservaId := 1, 1;
    }

    /** novo_equipamento: a name is required; the status comes from the form, 'disponivel' if absent. */
    method NovoEquipamento(nome: Option<string>, descricao: Option<string>, status: Option<string>)
      returns (o: Outcome)
      requires Valid()
      modifies this
      ensures Valid()
      ensures reservas == old(reservas) && proximaReservaId == old(proximaReservaId)
      ensures !Preenchido(nome) ==> o == Invalid(MissingFields) && unchanged(this)
      ensures Preenchido(nome) ==>
        && o == Ok(old(proximoEquipamentoId))
        && o.id !in old(equipamentos)
        && equipamentos == old(equipamentos)[o.id := SrcModels.NovoEquipamento(nome.value, descricao, status)]
        && proximoEquipamentoId == old(proximoEquipamentoId) + 1
    {
      if !Preenchido(nome) {
        return Invalid(MissingFields);
      }
      var id := proximoEquipamentoId;
      equipamentos := equipamentos[id := SrcModels.NovoEquipamento(nome.value, descricao, status)];
      proximoEquipamentoId := proximoEquipamentoId + 1;
      o := Ok(id);
    }

    /** nova_reserva: the guard chain, then one new reservation and the equipment marked 'reservado'. */
    method NovaReserva(
      equipamentoId: Option<int>, inicio: DateField, fim: DateField,
      clienteNome: Option<string>, clienteContato: Option<string>, hoje: int)
      returns (o: Outcome)
      requires Valid()
      modifies this
      ensures Valid()
      ensures proximoEquipamentoId == old(proximoEquipamentoId)
      ensures Recusa(old(equipamentos), old(reservas), equipamentoId, inicio, fim, clienteNome, hoje).Some? ==>
        && o == Recusa(old(equipamentos), old(reservas), equipamentoId, inicio, fim, clienteNome, hoje).value
        && unchanged(this)
      ensures Recusa(old(equipamentos), old(reservas), equipamentoId, inicio, fim, clienteNome, hoje).None? ==>
        && o == Ok(old(proximaReservaId))
        && o.id !in old(reservas)
        && reservas == old(reservas)[o.id := Reserva(equipamentoId.value, inicio.day, fim.day, clienteNome.value, clienteContato)]
        && equipamentos == old(equipamentos)[equipamentoId.value := old(equipamentos)[equipamentoId.value].(status := RESERVADO)]
        && proximaReservaId == old(proximaReservaId) + 1
    {
      if equipamentoId.None? || !DataPreenchida(inicio) || !DataPreenchida(fim) || !Preenchido(clienteNome) {
        return Invalid(MissingFields);
      }
      if !inicio.Day? || !fim.Day? {
        return Invalid(BadDateFormat);
      }
      if inicio.day > fim.day {
        return Invalid(StartAfterEnd);
      }
      if inicio.day < hoje {
        return Invalid(StartInPast);
      }
      var eid := equipamentoId.value;
      if eid !in equipamentos {
        return NotFound;
      }
      var equipamento := equipamentos[eid];
      if !EstaDisponivel(equipamento) {
        return Unavailable;
      }
      if HaConflito(reservas, eid, inicio.day, fim.day) {
        return Conflict;
      }
      DisponivelSemConflito(equipamentos, reservas, eid, inicio.day, fim.day);
      var id := proximaReservaId;
      reservas := reservas[id := Reserva(eid, inicio.day, fim.day, clienteNome.value, clienteContato)];
      equipamentos := equipamentos[eid := equipamento.(status := RESERVADO)];
      proximaReservaId := proximaReservaId + 1;
      o := Ok(id);
    }

    /** excluir_equipamento: refused while any reservation names the equipment. */
    method ExcluirEquipamento(id: int) returns (o: Outcome)
      requires Valid()
      modifies this
      ensures Valid()
      ensures id !in old(equipamentos) ==> o == NotFound && unchanged(this)
      ensures id in old(equipamentos) && TemReservas(old(reservas), id) ==> o == HasReservations && unchanged(this)
      ensures id in old(equipamentos) && !TemReservas(old(reservas), id) ==>
        && o == Ok(id)
        && equipamentos == old(equipamentos) - {id}
        && reservas == old(reservas)
        && proximoEquipamentoId == old(proximoEquipamentoId) && proximaReservaId == old(proximaReservaId)
    {
      if id !in equipamentos {
        return NotFound;
      }
      if TemReservas(reservas, id) {
        return HasReservations;
      }
      equipamentos := equipamentos - {id};
      o := Ok(id);
    }

    /** excluir_reserva: deletes the reservation and marks its equipment 'disponivel'. */
    method ExcluirReserva(id: int) returns (o: Outcome)
      requires Valid()
      modifies this
      ensures Valid()
      ensures id !in old(reservas) ==> o == NotFound && unchanged(this)
      ensures id in old(reservas) ==>
        && o == Ok(id)
        && reservas == old(reservas) - {id}
        && old(reservas)[id].equipamentoId in old(equipamentos)
        && equipamentos == old(equipamentos)[old(reservas)[id].equipamentoId :=
             old(equipamentos)[old(reservas)[id].equipamentoId].(status := DISPONIVEL)]
        && proximoEquipamentoId == old(proximoEquipamentoId) && proximaReservaId == old(proximaReservaId)
    {
      if id !in reservas {
        return NotFound;
      }
      var eid := reservas[id].equipamentoId;
      equipamentos := equipamentos[eid := equipamentos[eid].(status := DISPONIVEL)];
      reservas := reservas - {id};
      o := Ok(id);
    }

    /** finalizar_reserva: does exactly what excluir_reserva does. */
    method FinalizarReserva(id: int) returns (o: Outcome)
      requires Valid()
      modifies this
      ensures Valid()
      ensures id !in old(reservas) ==> o == NotFound && unchanged(this)
      ensures id in old(reservas) ==>
        && o == Ok(id)
        && reservas == old(reservas) - {id}
        && old(reservas)[id].equipamentoId in old(equipamentos)
        && equipamentos == old(equipamentos)[old(reservas)[id].equipamentoId :=
             old(equipamentos)[old(reservas)[id].equipamentoId].(status := DISPONIVEL)]
        && proximoEquipamentoId == old(proximoEquipamentoId) && proximaReservaId == old(proximaReservaId)
    {
      o := ExcluirReserva(id);
    }
  }

  /** A tent booked by Alice cannot be booked by Bob for any dates, even days
      after hers: the status check refuses before dates are compared. */
  method CenarioBarraca() returns (alice: Outcome, bobPartilha: Outcome, bobSeguinte: Outcome)
    ensures alice.Ok?
    ensures bobPartilha == Unavailable && bobSeguinte == Unavailable
  {
    var db := new Db();
    var barraca := db.NovoEquipamento(Some("Tent-A"), None, None);
    alice := db.NovaReserva(Some(barraca.id), Day(100), Day(102), Some("Alice"), None, 100);
    bobPartilha := db.NovaReserva(Some(barraca.id), Day(102), Day(104), Some("Bob"), None, 100);
    bobSeguinte := db.NovaReserva(Some(barraca.id), Day(103), Day(104), Some("Bob"), None, 100);
  }

  /** Finalizing Alice's booking frees the tent for Bob; finalizing it again
      finds nothing, since the booking was deleted. */
  method CenarioFinalizacao() returns (alice: Outcome, fim1: Outcome, fim2: Outcome, bob: Outcome)
    ensures alice.Ok?
    ensures fim1 == Ok(alice.id) && fim2 == NotFound
    ensures bob.Ok? && bob.id != alice.id
  {
    var db := new Db();
    var barraca := db.NovoEquipamento(Some("Tent-A"), None, None);
    alice := db.NovaReserva(Some(barraca.id), Day(100), Day(102), Some("Alice"), None, 100);
    fim1 := db.FinalizarReserva(alice.id);
    fim2 := db.FinalizarReserva(alice.id);
    bob := db.NovaReserva(Some(barraca.id), Day(102), Day(104), Some("Bob"), None, 100);
  }
}
