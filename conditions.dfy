/** The loan conditions tool (`obter_condicoes_emprestimo`): a constant answer
    with no input and no failure. */
module Conditions {

  /** The data of the tool's ToolResult; its "status" is always "OK".
      The interest rate 1.79 is kept in hundredths of a percent point. */
  datatype LoanConditions = LoanConditions(
    interestHundredths: int,      // "juros"
    maxInstallments: int,         // "parcelas_max"
    defaultDueDay: int            // "dia_vencimento_padrao"
  )

  /** `obter_condicoes_emprestimo`: 1.79 interest, at most 10 instalments, due
      on day 15. */
  function ObterCondicoesEmprestimo(): (c: LoanConditions)
    ensures c.interestHundredths == 179
    ensures c.maxInstallments == 10
    ensures c.defaultDueDay == 15
  {
    LoanConditions(179, 10, 15)
  }
}
