/**
  The program around the chain: it assembles the five-level approval chain,
  checks the requested amount against the loan range, and asks the head of the
  chain for a decision. Reading the amount and printing the answer are not
  modelled; the amount arrives as a parameter.
 */
module App {
  import opened Loan

  // The five levels, in chain order.
  const EMPLOYEE: Level := Level(EMPLOYEE_LIMIT, "Employee")
  const BANK_MANAGER: Level := Level(BANK_MANAGER_LIMIT, "BankManager")
  const CITY_BANK_MANAGER: Level := Level(CITY_BANK_MANAGER_LIMIT, "CityBankManager")
  const PROVINCE_BANK_MANAGER: Level := Level(PROVINCE_BANK_MANAGER_LIMIT, "ProvinceBankManager")
  const TOP_BANK_MANAGER: Level := Level(TOP_BANK_MANAGER_LIMIT, "TopBankManager")

  /** The loan chain: Employee, then BankManager, CityBankManager,
      ProvinceBankManager and TopBankManager, which has no successor. */
  function InitLoanBusinessChain(): (chain: seq<Level>)
    ensures |chain| == 5
    ensures chain[0] == EMPLOYEE && chain[|chain| - 1] == TOP_BANK_MANAGER
    ensures forall i :: 0 <= i < |chain| ==> chain[i].maxLoan == 10000 * (i + 1)
    ensures StrictlyIncreasing(chain)
    ensures chain[0].maxLoan >= LOAN_MIN && chain[|chain| - 1].maxLoan == LOAN_MAX
    ensures forall i :: 0 <= i < |chain| ==> |ApprovalInfo(chain[i])| <= MAX_INFO_LEN
  {
    [EMPLOYEE, BANK_MANAGER, CITY_BANK_MANAGER, PROVINCE_BANK_MANAGER, TOP_BANK_MANAGER]
  }

  /** Whether an amount lies in the range the program accepts. */
  predicate InLoanRange(loan: uint32) {
    LOAN_MIN <= loan <= LOAN_MAX
  }

  /** What one run of the program does with an amount: refuse it as out of
      range, or report the chain's response. */
  datatype RunOutcome = OutOfRange | Answered(response: Response) {
    /** The value the program returns. */
    function ExitStatus(): (status: int)
      ensures status == 0 <==> Answered?
      ensures OutOfRange? ==> status == -1
    {
      match this
      case OutOfRange => -1
      case Answered(_) => 0
    }
  }

  /** One run of the program on an amount already read. */
  function Run(loan: uint32): (o: RunOutcome)
    ensures o.OutOfRange? <==> !InLoanRange(loan)
    ensures o.Answered? ==> o.response == Response(Pass, ApprovalInfo(ExpectedApprover(loan).value))
  {
    if loan < LOAN_MIN || loan > LOAN_MAX then OutOfRange
    else
      BuiltChainBands(loan);
      Answered(Handle(InitLoanBusinessChain(), Some(Request(LoanBusiness, loan))))
  }

  /** The level that should approve an amount, by band of amounts. */
  function ExpectedApprover(loan: uint32): (level: Option<Level>)
    ensures level.Some? <==> loan <= TOP_BANK_MANAGER_LIMIT
  {
    if loan <= 10000 then Some(EMPLOYEE)
    else if loan <= 20000 then Some(BANK_MANAGER)
    else if loan <= 30000 then Some(CITY_BANK_MANAGER)
    else if loan <= 40000 then Some(PROVINCE_BANK_MANAGER)
    else if loan <= 50000 then Some(TOP_BANK_MANAGER)
    else None
  }

  /** The approver band of an amount is the lowest-limit level of the chain covering it. */
  lemma ExpectedApproverIsLowestCovering(loan: uint32)
    requires loan <= TOP_BANK_MANAGER_LIMIT
    ensures exists i :: IsLowestCovering(InitLoanBusinessChain(), loan, i)
                        && InitLoanBusinessChain()[i] == ExpectedApprover(loan).value
  {
    var chain := InitLoanBusinessChain();
    var i := if loan <= 10000 then 0 else if loan <= 20000 then 1
             else if loan <= 30000 then 2 else if loan <= 40000 then 3 else 4;
    assert IsLowestCovering(chain, loan, i);
  }

  /** The built chain sends every amount to the level of its band, a request at
      a level's limit included, and rejects amounts above the top limit as exhausted. */
  lemma {:induction false} BuiltChainBands(loan: uint32)
    ensures loan <= TOP_BANK_MANAGER_LIMIT ==>
      Handle(InitLoanBusinessChain(), Some(Request(LoanBusiness, loan)))
        == Response(Pass, ApprovalInfo(ExpectedApprover(loan).value))
    ensures loan > TOP_BANK_MANAGER_LIMIT ==>
      Handle(InitLoanBusinessChain(), Some(Request(LoanBusiness, loan)))
        == Response(NotPass, LAST_HANDLER_INFO)
  {
    var chain := InitLoanBusinessChain();
    var req := Request(LoanBusiness, loan);
    IncreasingChainRouting(chain, req);
    if loan <= TOP_BANK_MANAGER_LIMIT {
      ExpectedApproverIsLowestCovering(loan);
      var i :| IsLowestCovering(chain, loan, i) && chain[i] == ExpectedApprover(loan).value;
      assert Handle(chain, Some(req)) == HandleSelf(chain[i]);
    }
  }

  /** Every amount in range is approved, by the level of its band. */
  lemma RunApprovesInRange(loan: uint32)
    requires InLoanRange(loan)
    ensures Run(loan).Answered?
    ensures Run(loan).response == Response(Pass, ApprovalInfo(ExpectedApprover(loan).value))
  {
  }

  /** An amount outside the range never reaches the chain and ends the program with -1. */
  lemma RunRejectsOutOfRange(loan: uint32)
    requires !InLoanRange(loan)
    ensures Run(loan) == OutOfRange && Run(loan).ExitStatus() == -1
  {
  }

  /** The worked example: 15000 is approved by the bank manager, and a request
      at exactly 20000 stays with the bank manager rather than moving on. */
  lemma ConcreteScenarios()
    ensures Run(15000) == Answered(Response(Pass, "BankManager approved"))
    ensures Run(20000) == Answered(Response(Pass, "BankManager approved"))
    ensures Run(4999) == OutOfRange && Run(60000) == OutOfRange
  {
    RunApprovesInRange(15000);
    RunApprovesInRange(20000);
  }
}
