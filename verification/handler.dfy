/**
  The loan-approval chain of responsibility: requests, responses, and the
  handler chain that routes a request to the first level allowed to approve it.

  A handler object linked to its successors through `setNext` is modelled as
  a sequence of levels: `chain[0]` is the handler `handle` is called on and
  `chain[1..]` are the handlers reachable through its `next` links, in order.
  The per-level subclasses differ only in the name they approve with, so a
  level is plain data: a limit and a role name.
 */
module Loan {

  /** An unsigned 32-bit integer, the width of the amounts and limits. */
  type uint32 = x: int | 0 <= x < 0x1_0000_0000

  /** A value that may be missing: a request handle or a message pointer that may be null. */
  datatype Option<+T> = None | Some(value: T)

  /** The business type of a request. The enumeration names one type; any other
      value cast into it is `OtherBusiness`. */
  datatype BusinessType = LoanBusiness | OtherBusiness

  /** The outcome of a request, with the numeric values of the enumeration. */
  datatype BusinessResult = Pass | NotPass {
    function Code(): (c: int)
      ensures c == 0 <==> Pass?
      ensures 0 <= c <= 1
    {
      match this
      case Pass => 0
      case NotPass => 1
    }
  }

  // The loan limits of the enumeration that bounds amounts and levels.
  const LOAN_MIN: uint32 := 5000
  const EMPLOYEE_LIMIT: uint32 := 10000
  const BANK_MANAGER_LIMIT: uint32 := 20000
  const CITY_BANK_MANAGER_LIMIT: uint32 := 30000
  const PROVINCE_BANK_MANAGER_LIMIT: uint32 := 40000
  const TOP_BANK_MANAGER_LIMIT: uint32 := 50000
  const LOAN_MAX: uint32 := 50000

  /** A loan request: what kind of business and how much. */
  datatype Request = Request(businessType: BusinessType, loan: uint32)

  /** The longest message a response keeps. */
  const MAX_INFO_LEN: nat := 100

  // The fixed messages of the chain.
  const NULL_INFO: string := "null"
  const NULL_REQUEST_INFO: string := "Request is null!"
  const LAST_HANDLER_INFO: string := "this is the last handler.\n"

  /** A response: the result and a message of at most MAX_INFO_LEN characters. */
  datatype Response = Response(result: BusinessResult, info: string)

  /** The message a response keeps from `info`: its first MAX_INFO_LEN characters. */
  function Truncate(info: string): (m: string)
    ensures |m| <= MAX_INFO_LEN
    ensures m <= info
    ensures |info| <= MAX_INFO_LEN ==> m == info
    ensures |info| > MAX_INFO_LEN ==> |m| == MAX_INFO_LEN
  {
    if |info| < MAX_INFO_LEN then info else info[..MAX_INFO_LEN]
  }

  /** Builds a response; a missing message becomes "null", a long one is cut. */
  function BuildResponse(result: BusinessResult, info: Option<string>): (r: Response)
    ensures r.result == result
    ensures |r.info| <= MAX_INFO_LEN
    ensures info.None? ==> r.info == NULL_INFO
    ensures info.Some? ==> r.info <= info.value
    ensures info.Some? && |info.value| <= MAX_INFO_LEN ==> r.info == info.value
    ensures info.Some? && |info.value| > MAX_INFO_LEN ==> |r.info| == MAX_INFO_LEN
  {
    match info
    case None => Response(result, NULL_INFO)
    case Some(s) => Response(result, Truncate(s))
  }

  /*
    The message buffer of a response, byte by byte. The buffer has
    MAX_INFO_LEN + 1 cells; a message is read back from it as a C string, up
    to the first NUL. The message stored is the text before the terminator of
    the C string passed in, so it holds no NUL itself.
   */

  const INFO_BUFFER_SIZE: nat := MAX_INFO_LEN + 1

  const NUL: char := '\0'

  /** The contents of a C string passed in: no NUL before its terminator. */
  predicate IsCStringText(s: string) {
    NUL !in s
  }

  /** The text a buffer holds when read as a C string: everything before its first NUL. */
  function ReadCString(buffer: seq<char>): (s: string)
    ensures s <= buffer
    ensures IsCStringText(s)
    ensures |s| < |buffer| ==> buffer[|s|] == NUL
  {
    if |buffer| == 0 || buffer[0] == NUL then []
    else [buffer[0]] + ReadCString(buffer[1..])
  }

  /** The number of characters copied into the buffer: the length, capped at MAX_INFO_LEN. */
  function CopyLength(info: string): (n: nat)
    ensures n <= MAX_INFO_LEN && n <= |info|
    ensures n == |info| || n == MAX_INFO_LEN
  {
    if |info| < MAX_INFO_LEN then |info| else MAX_INFO_LEN
  }

  /** The buffer as the constructor leaves it, written as the source does: the
      terminator goes at index |info|, even past the copied part. An index
      outside the buffer is undefined behaviour, shown as None. */
  function StoreInfoAsWritten(buffer: seq<char>, info: string): (b: Option<seq<char>>)
    requires |buffer| == INFO_BUFFER_SIZE
    ensures b.Some? ==> |b.value| == INFO_BUFFER_SIZE
  {
    var n := CopyLength(info);
    var copied := info[..n] + buffer[n..];
    if |info| < INFO_BUFFER_SIZE then Some(copied[|info| := NUL]) else None
  }

  /** A long message makes the source write its terminator past the end of the buffer. */
  lemma AsWrittenOverrunsOnLongInfo(buffer: seq<char>, info: string)
    requires |buffer| == INFO_BUFFER_SIZE
    ensures StoreInfoAsWritten(buffer, info).None? <==> |info| > MAX_INFO_LEN
  {
  }

  /** A concrete overrun: a 101-character message. */
  lemma AsWrittenOverrunExample()
    ensures StoreInfoAsWritten(seq(INFO_BUFFER_SIZE, _ => ' '), seq(101, _ => 'x')).None?
  {
    AsWrittenOverrunsOnLongInfo(seq(INFO_BUFFER_SIZE, _ => ' '), seq(101, _ => 'x'));
  }

  /** The buffer as intended: the copied characters, then the terminator right after them. */
  function StoreInfo(buffer: seq<char>, info: string): (b: seq<char>)
    requires |buffer| == INFO_BUFFER_SIZE
    ensures |b| == INFO_BUFFER_SIZE
    ensures b[CopyLength(info)] == NUL
    ensures b[..CopyLength(info)] == info[..CopyLength(info)]
  {
    var n := CopyLength(info);
    info[..n] + [NUL] + buffer[n + 1..]
  }

  /** Within the buffer the source and the intended store agree: every message of
      at most MAX_INFO_LEN characters is stored identically by both. */
  lemma StoreInfoAgreesWhenShort(buffer: seq<char>, info: string)
    requires |buffer| == INFO_BUFFER_SIZE
    requires |info| <= MAX_INFO_LEN
    ensures StoreInfoAsWritten(buffer, info) == Some(StoreInfo(buffer, info))
  {
    var n := CopyLength(info);
    assert n == |info|;
    var copied := info[..n] + buffer[n..];
    assert copied[n := NUL] == info[..n] + [NUL] + buffer[n + 1..];
  }

  /** Reading the intended buffer back gives exactly the truncated message. */
  lemma {:induction false} StoreInfoReadsBack(buffer: seq<char>, info: string)
    requires |buffer| == INFO_BUFFER_SIZE
    requires IsCStringText(info)
    ensures ReadCString(StoreInfo(buffer, info)) == Truncate(info)
  {
    var n := CopyLength(info);
    assert info[..n] == Truncate(info);
    ReadCStringOfTerminated(info[..n], buffer[n + 1..]);
    assert StoreInfo(buffer, info) == info[..n] + ([NUL] + buffer[n + 1..]);
  }

  /** A NUL-free text followed by a NUL reads back as that text. */
  lemma {:induction false} ReadCStringOfTerminated(s: string, rest: seq<char>)
    requires IsCStringText(s)
    ensures ReadCString(s + ([NUL] + rest)) == s
  {
    if s != [] {
      assert (s + ([NUL] + rest))[1..] == s[1..] + ([NUL] + rest);
      assert s[0] in s;
      ReadCStringOfTerminated(s[1..], rest);
    }
  }

  /** One level of the chain: the largest amount it may approve and the role it approves as. */
  datatype Level = Level(maxLoan: uint32, role: string)

  /** The message a level answers with when it approves. */
  function ApprovalInfo(level: Level): string {
    level.role + " approved"
  }

  /** Whether a level may approve a request: a loan no larger than its limit. */
  predicate HasPermission(level: Level, req: Request) {
    req.businessType == LoanBusiness && req.loan <= level.maxLoan
  }

  /** A request at exactly a level's limit is approved by it, one more is not,
      and a request of another business type never is. */
  lemma PermissionBoundary(level: Level, req: Request)
    ensures req.businessType == LoanBusiness && req.loan == level.maxLoan ==> HasPermission(level, req)
    ensures req.loan == level.maxLoan + 1 ==> !HasPermission(level, req)
    ensures req.businessType != LoanBusiness ==> !HasPermission(level, req)
  {
  }

  /** What an approving level answers: PASS with its own message. */
  function HandleSelf(level: Level): (r: Response)
    ensures r.result == Pass
    ensures r.info <= ApprovalInfo(level)
    ensures |ApprovalInfo(level)| <= MAX_INFO_LEN ==> r.info == ApprovalInfo(level)
  {
    BuildResponse(Pass, Some(ApprovalInfo(level)))
  }

  /** Whether some level of the chain may approve the request. */
  predicate SomeLevelPermits(chain: seq<Level>, req: Request) {
    exists i :: 0 <= i < |chain| && HasPermission(chain[i], req)
  }

  /** `chain[i]` is the first level, in chain order, that may approve the request. */
  predicate IsFirstPermitting(chain: seq<Level>, req: Request, i: int) {
    && 0 <= i < |chain|
    && HasPermission(chain[i], req)
    && forall j :: 0 <= j < i ==> !HasPermission(chain[j], req)
  }

  /** The response of the handler `chain[0]` to a request that may be absent. */
  function Handle(chain: seq<Level>, req: Option<Request>): (r: Response)
    requires |chain| > 0
    ensures r.result == Pass <==> req.Some? && SomeLevelPermits(chain, req.value)
    ensures req.None? ==> r.info == NULL_REQUEST_INFO
    ensures req.Some? && r.result == NotPass ==> r.info == LAST_HANDLER_INFO
    decreases |chain|, 1
  {
    match req
    case None => BuildResponse(NotPass, Some(NULL_REQUEST_INFO))
    case Some(q) =>
      if HasPermission(chain[0], q) then HandleSelf(chain[0])
      else HandleNext(chain, q)
  }

  /** A handler without permission passes the request on, or rejects it when it is the last. */
  function HandleNext(chain: seq<Level>, req: Request): (r: Response)
    requires |chain| > 0
    requires !HasPermission(chain[0], req)
    ensures r.result == Pass <==> SomeLevelPermits(chain, req)
    ensures r.result == NotPass ==> r.info == LAST_HANDLER_INFO
    decreases |chain|, 0
  {
    if |chain| > 1 then
      var r := Handle(chain[1..], Some(req));
      assert SomeLevelPermits(chain[1..], req) ==> SomeLevelPermits(chain, req) by {
        if SomeLevelPermits(chain[1..], req) {
          var i :| 0 <= i < |chain[1..]| && HasPermission(chain[1..][i], req);
          assert HasPermission(chain[i + 1], req);
        }
      }
      r
    else
      BuildResponse(NotPass, Some(LAST_HANDLER_INFO))
  }

  /** An absent request is rejected at once. */
  lemma NullRequestRejected(chain: seq<Level>)
    requires |chain| > 0
    ensures Handle(chain, None) == Response(NotPass, NULL_REQUEST_INFO)
  {
  }

  /** One step of the walk: an approving head answers itself, otherwise the
      rest of the chain answers, and a last handler without permission rejects. */
  lemma HandleStep(chain: seq<Level>, req: Request)
    requires |chain| > 0
    ensures HasPermission(chain[0], req) ==> Handle(chain, Some(req)) == HandleSelf(chain[0])
    ensures !HasPermission(chain[0], req) && |chain| > 1 ==> Handle(chain, Some(req)) == Handle(chain[1..], Some(req))
    ensures !HasPermission(chain[0], req) && |chain| == 1 ==> Handle(chain, Some(req)) == Response(NotPass, LAST_HANDLER_INFO)
  {
  }

  /** The whole walk: the first permitting level answers with its approval. */
  lemma {:induction false} HandleFirstPermitting(chain: seq<Level>, req: Request, i: int)
    requires IsFirstPermitting(chain, req, i)
    ensures Handle(chain, Some(req)) == HandleSelf(chain[i])
    decreases i
  {
    if i > 0 {
      assert !HasPermission(chain[0], req);
      assert IsFirstPermitting(chain[1..], req, i - 1) by {
        forall j | 0 <= j < i - 1
          ensures !HasPermission(chain[1..][j], req)
        {
          assert chain[1..][j] == chain[j + 1];
        }
      }
      HandleFirstPermitting(chain[1..], req, i - 1);
    }
  }

  /** When no level may approve, the walk runs off the end of the chain. */
  lemma {:induction false} HandleExhausted(chain: seq<Level>, req: Request)
    requires |chain| > 0
    requires !SomeLevelPermits(chain, req)
    ensures Handle(chain, Some(req)) == Response(NotPass, LAST_HANDLER_INFO)
    decreases |chain|
  {
    assert !HasPermission(chain[0], req);
    if |chain| > 1 {
      assert !SomeLevelPermits(chain[1..], req) by {
        forall j | 0 <= j < |chain| - 1
          ensures !HasPermission(chain[1..][j], req)
        {
          assert chain[1..][j] == chain[j + 1];
        }
      }
      HandleExhausted(chain[1..], req);
    }
  }

  /** A request that names another business type is never approved, whatever the amount. */
  lemma OtherBusinessNeverApproved(chain: seq<Level>, req: Request)
    requires |chain| > 0
    requires req.businessType != LoanBusiness
    ensures Handle(chain, Some(req)) == Response(NotPass, LAST_HANDLER_INFO)
  {
    HandleExhausted(chain, req);
  }

  /** The limits strictly increase along the chain. */
  predicate StrictlyIncreasing(chain: seq<Level>) {
    forall i, j :: 0 <= i < j < |chain| ==> chain[i].maxLoan < chain[j].maxLoan
  }

  /** `chain[i]` has the lowest limit that still covers the amount. */
  predicate IsLowestCovering(chain: seq<Level>, amount: int, i: int) {
    && 0 <= i < |chain|
    && amount <= chain[i].maxLoan
    && forall j :: 0 <= j < |chain| && amount <= chain[j].maxLoan ==> chain[i].maxLoan <= chain[j].maxLoan
  }

  /** On an increasing chain, for a loan request the first permitting level is
      exactly the level with the lowest limit covering the amount. */
  lemma FirstPermittingIsLowestCovering(chain: seq<Level>, req: Request, i: int)
    requires StrictlyIncreasing(chain)
    requires req.businessType == LoanBusiness
    ensures IsFirstPermitting(chain, req, i) <==> IsLowestCovering(chain, req.loan, i)
  {
    if IsLowestCovering(chain, req.loan, i) {
      forall j | 0 <= j < i
        ensures !HasPermission(chain[j], req)
      {
        assert chain[j].maxLoan < chain[i].maxLoan;
      }
    }
  }

  /** On an increasing chain, a loan request is approved by the level with the
      lowest covering limit, and rejected as exhausted when no limit covers it. */
  lemma {:induction false} IncreasingChainRouting(chain: seq<Level>, req: Request)
    requires |chain| > 0
    requires StrictlyIncreasing(chain)
    requires req.businessType == LoanBusiness
    ensures forall i :: IsLowestCovering(chain, req.loan, i) ==> Handle(chain, Some(req)) == HandleSelf(chain[i])
    ensures req.loan > chain[|chain| - 1].maxLoan ==> Handle(chain, Some(req)) == Response(NotPass, LAST_HANDLER_INFO)
  {
    forall i | IsLowestCovering(chain, req.loan, i)
      ensures Handle(chain, Some(req)) == HandleSelf(chain[i])
    {
      FirstPermittingIsLowestCovering(chain, req, i);
      HandleFirstPermitting(chain, req, i);
    }
    if req.loan > chain[|chain| - 1].maxLoan {
      assert !SomeLevelPermits(chain, req) by {
        forall j | 0 <= j < |chain|
          ensures !HasPermission(chain[j], req)
        {
          assert j == |chain| - 1 || chain[j].maxLoan < chain[|chain| - 1].maxLoan;
        }
      }
      HandleExhausted(chain, req);
    }
  }
}
