/** The equipment and reservation rows of the `finalizada` variant (app/models.py). */
module AppModels {
  import opened Common

  const DISPONIVEL: string := "disponivel"
  const MANUTENCAO: string := "manutencao"
  const SECONDS_PER_DAY: int := 86400

  datatype Equipamento = Equipamento(nome: string, descricao: Option<string>, status: string)

  /** Dates are day numbers: the routes store `date` values, which the DateTime
      columns hold as midnight of that day. */
  datatype Reserva = Reserva(
    equipamentoId: int,
    clienteNome: string,
    clienteContato: Option<string>,
    dataInicio: int,
    dataFim: int,
    finalizada: bool)

  /** `Equipamento(nome=..., descricao=..., status=...)`: a status left out takes the column default. */
  function NovoEquipamento(nome: string, descricao: Option<string>, status: Option<string>): (e: Equipamento)
    ensures e.nome == nome && e.descricao == descricao
    ensures status.Some? ==> e.status == status.value
    ensures status.None? ==> e.status == DISPONIVEL
  {
    Equipamento(nome, descricao, if status.Some? then status.value else DISPONIVEL)
  }

  /** `Reserva(...)` as nova_reserva builds it: `finalizada` takes its default, False. */
  function NovaReserva(equipamentoId: int, clienteNome: string, clienteContato: Option<string>, inicio: int, fim: int)
    : (r: Reserva)
    ensures !r.finalizada
    ensures r.equipamentoId == equipamentoId && r.clienteNome == clienteNome && r.clienteContato == clienteContato
    ensures r.dataInicio == inicio && r.dataFim == fim
  {
    Reserva(equipamentoId, clienteNome, clienteContato, inicio, fim, false)
  }

  /** `d + timedelta(seconds=s)` for a Python `date` d: a date keeps only the whole
      days of the timedelta, and timedelta normalizes s seconds to s // 86400 days
      (floor division; Dafny's `/` agrees with it for a positive divisor). */
  function DatePlusSeconds(d: int, s: int): (r: int)
    ensures 0 <= s < SECONDS_PER_DAY ==> r == d
  {
    d + s / SECONDS_PER_DAY
  }

  /** `d - timedelta(seconds=s)` for a date: `d + timedelta(-delta.days)`. */
  function DateMinusSeconds(d: int, s: int): (r: int)
    ensures 0 <= s < SECONDS_PER_DAY ==> r == d
  {
    d - s / SECONDS_PER_DAY
  }

  /** `column.between(lo, hi)`. */
  predicate Between(x: int, lo: int, hi: int) {
    lo <= x <= hi
  }

  /** One row matched by the filter of `esta_disponivel`. */
  predicate Conflita(r: Reserva, equipamentoId: int, inicio: int, fim: int) {
    && r.equipamentoId == equipamentoId
    && (|| Between(r.dataInicio, inicio, DateMinusSeconds(fim, 1))
        || Between(r.dataFim, DatePlusSeconds(inicio, 1), fim))
  }

  /** `Equipamento.esta_disponivel(data_inicio, data_fim)` on the reservation table,
      for the `date` values nova_reserva passes. The one-second shifts vanish on
      dates, so a reservation blocks exactly when its first or its last day falls
      inside the requested period, finalized or not. */
  function EstaDisponivel(reservas: map<int, Reserva>, equipamentoId: int, inicio: int, fim: int): (livre: bool)
    ensures livre <==> forall rid | rid in reservas && reservas[rid].equipamentoId == equipamentoId ::
                         !Within(reservas[rid].dataInicio, inicio, fim) && !Within(reservas[rid].dataFim, inicio, fim)
  {
    !exists rid | rid in reservas :: Conflita(reservas[rid], equipamentoId, inicio, fim)
  }

  /** The inclusive overlap of a stored period and [ini, fim]. */
  predicate Sobrepoe(r: Reserva, ini: int, fim: int) {
    r.dataInicio <= fim && r.dataFim >= ini
  }

  /** The stored period contains [ini, fim] with a day to spare at each end. */
  predicate ContemEstritamente(r: Reserva, ini: int, fim: int) {
    r.dataInicio < ini && fim < r.dataFim
  }

  /** For well-ordered periods, `esta_disponivel` misses exactly the bookings that
      strictly contain the request: it is true iff every reservation of the
      equipment is disjoint from the request or strictly contains it. */
  lemma EstaDisponivelSeDisjuntaOuContem(reservas: map<int, Reserva>, equipamentoId: int, ini: int, fim: int)
    requires ini <= fim
    requires forall rid | rid in reservas :: reservas[rid].dataInicio <= reservas[rid].dataFim
    ensures EstaDisponivel(reservas, equipamentoId, ini, fim) <==>
      forall rid | rid in reservas && reservas[rid].equipamentoId == equipamentoId ::
        !Sobrepoe(reservas[rid], ini, fim) || ContemEstritamente(reservas[rid], ini, fim)
  {
    if EstaDisponivel(reservas, equipamentoId, ini, fim) {
      forall rid | rid in reservas && reservas[rid].equipamentoId == equipamentoId
        ensures !Sobrepoe(reservas[rid], ini, fim) || ContemEstritamente(reservas[rid], ini, fim)
      {
        assert !Within(reservas[rid].dataInicio, ini, fim) && !Within(reservas[rid].dataFim, ini, fim);
      }
    }
  }

  /** A booking that strictly contains the request is not reported as a conflict. */
  lemma ContencaoNaoDetectada(rid: int, r: Reserva, ini: int, fim: int)
    requires ini <= fim && ContemEstritamente(r, ini, fim)
    ensures EstaDisponivel(map[rid := r], r.equipamentoId, ini, fim)
    ensures Sobrepoe(r, ini, fim)
  {
  }

  /** Reservations of other equipment never change the answer. */
  lemma OutroEquipamentoIrrelevante(reservas: map<int, Reserva>, rid: int, r: Reserva, equipamentoId: int, ini: int, fim: int)
    requires r.equipamentoId != equipamentoId
    ensures EstaDisponivel(reservas[rid := r], equipamentoId, ini, fim) == EstaDisponivel(reservas - {rid}, equipamentoId, ini, fim)
  {
    var com, sem := reservas[rid := r], reservas - {rid};
    assert forall k | k in com && com[k].equipamentoId == equipamentoId :: k in sem && sem[k] == com[k];
    assert forall k | k in sem :: k in com && com[k] == sem[k];
  }

  /** Finalizing a reservation does not free its days. */
  lemma FinalizadaAindaBloqueia(reservas: map<int, Reserva>, rid: int, equipamentoId: int, ini: int, fim: int)
    requires rid in reservas
    ensures EstaDisponivel(reservas[rid := reservas[rid].(finalizada := true)], equipamentoId, ini, fim)
         == EstaDisponivel(reservas, equipamentoId, ini, fim)
  {
    var depois := reservas[rid := reservas[rid].(finalizada := true)];
    assert forall k | k in depois ::
      k in reservas && depois[k].equipamentoId == reservas[k].equipamentoId
      && depois[k].dataInicio == reservas[k].dataInicio && depois[k].dataFim == reservas[k].dataFim;
  }

  /** A one-day request is refused exactly when a booking of the equipment starts or ends on that day. */
  lemma PedidoDeUmDia(reservas: map<int, Reserva>, equipamentoId: int, dia: int)
    ensures EstaDisponivel(reservas, equipamentoId, dia, dia) <==>
      forall rid | rid in reservas && reservas[rid].equipamentoId == equipamentoId ::
        reservas[rid].dataInicio != dia && reservas[rid].dataFim != dia
  {
  }

  /** `Reserva.duracao_dias()`: the days of the booking, both ends included. */
  function DuracaoDias(r: Reserva): (n: int)
    ensures r.dataInicio <= r.dataFim ==> n >= 1 && n == |Days(r.dataInicio, r.dataFim)|
    ensures r.dataInicio == r.dataFim ==> n == 1
  {
    if r.dataInicio <= r.dataFim then DaysCount(r.dataInicio, r.dataFim); r.dataFim - r.dataInicio + 1
    else r.dataFim - r.dataInicio + 1
  }
}
