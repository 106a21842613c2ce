/** The equipment and reservation rows of the explicit-status variant
    (src/models.py, duplicated verbatim in src/models/equipamento.py). */
module SrcModels {
  import opened Common

  const DISPONIVEL: string := "disponivel"
  const RESERVADO: string := "reservado"
  const MANUTENCAO: string := "manutencao"

  /** `status` is a non-null string column; the form may store any string in it. */
  datatype Equipamento = Equipamento(nome: string, descricao: Option<string>, status: string)

  /** Dates are day numbers; both are non-null columns. */
  datatype Reserva = Reserva(
    equipamentoId: int,
    dataInicio: int,
    dataFim: int,
    clienteNome: string,
    clienteContato: Option<string>)

  /** `Equipamento(nome=..., descricao=..., status=...)`: a status left out takes the column default. */
  function NovoEquipamento(nome: string, descricao: Option<string>, status: Option<string>): (e: Equipamento)
    ensures e.nome == nome && e.descricao == descricao
    ensures status.Some? ==> e.status == status.value
    ensures status.None? ==> EstaDisponivel(e)
  {
    Equipamento(nome, descricao, if status.Some? then status.value else DISPONIVEL)
  }

  /** `Equipamento.esta_disponivel()`: bookable exactly when the status is 'disponivel'. */
  function EstaDisponivel(e: Equipamento): (livre: bool)
    ensures livre <==> e.status == DISPONIVEL
    ensures e.status == RESERVADO || e.status == MANUTENCAO ==> !livre
  {
    e.status == DISPONIVEL
  }

  /** `Reserva.duracao_dias()`: the days of the booking, both ends included; 0 when a date is missing. */
  function DuracaoDias(inicio: Option<int>, fim: Option<int>): (n: int)
    ensures inicio.None? || fim.None? ==> n == 0
    ensures inicio.Some? && fim.Some? && inicio.value <= fim.value ==>
              n >= 1 && n == |Days(inicio.value, fim.value)|
    ensures inicio.Some? && fim.Some? && inicio.value == fim.value ==> n == 1
  {
    if inicio.Some? && fim.Some? then
      var n := fim.value - inicio.value + 1;
      if inicio.value <= fim.value then DaysCount(inicio.value, fim.value); n else n
    else
      0
  }

  /** Moving both dates by the same number of days keeps the duration. */
  lemma DuracaoDeslocada(inicio: int, fim: int, k: int)
    ensures DuracaoDias(Some(inicio + k), Some(fim + k)) == DuracaoDias(Some(inicio), Some(fim))
  {
  }
}
