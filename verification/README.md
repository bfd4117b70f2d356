# Loan-approval chain of responsibility, in Dafny

This project models a small bank loan-approval program built as a chain of
responsibility. A `Request` carries a business type and an unsigned 32-bit
loan amount. It goes to the head handler of a chain. Each handler may approve
a loan business request up to its own limit. The first handler that may
approve answers PASS with its own message, such as "Employee approved".
A handler that may not approve passes the request to its successor. The last
handler rejects with NOT_PASS and "this is the last handler.\n". An absent
(null) request is rejected at once with "Request is null!". A `Response`
keeps at most 100 characters of its message and says "null" when given none.

The program builds five levels: Employee (10000), BankManager (20000),
CityBankManager (30000), ProvinceBankManager (40000) and TopBankManager
(50000), with Employee as head. It refuses amounts outside 5000..50000 with
exit status -1 before the chain is asked.

Modules:

- `Loan` (handler.dfy) models src/Handler.h. A handler and the handlers linked
  after it are a `seq<Level>`, where `Level = (maxLoan, role)`. The five
  subclasses differ only in their role name, so the role is data. `Handle`
  and `HandleNext` are the mutually recursive walk. The lemmas relate the walk
  to an independent description: the first level in chain order that has
  permission. On a chain with strictly increasing limits, that is also the
  level with the lowest limit covering the amount. The module also models the
  response's 101-character message buffer, to pin down the buffer defect
  listed under Findings.
- `App` (app.dfy) models src/main.cpp. It builds the chain, applies the range
  guard, and proves the band of amounts each level approves.

`Handle` is a pure function of the chain and the request. Two calls with
equal requests therefore give equal responses.

## Model

| member | source | states |
|---|---|---|
| Loan.BusinessResult.Code | src/Handler.h:21-24 | PASS has the value 0 and NOT_PASS the value 1; this value is what the program prints as the result |
| Loan.Truncate | src/Handler.h:59-61 | the kept message is a prefix of the given one, at most 100 characters long, and the whole message when it fits |
| Loan.BuildResponse | src/Handler.h:54-69 | the response keeps the result; no message gives "null"; otherwise the message is the given one truncated to 100 characters, without error |
| Loan.CopyLength | src/Handler.h:60-61 | the number of characters copied is the message length capped at 100: at most both, and equal to one of them |
| Loan.ReadCString | src/Handler.h:72-75 | reading the buffer back through `getInfo` gives a NUL-free prefix of the buffer, stopped at a NUL when one is present |
| Loan.StoreInfoAsWritten | src/Handler.h:58-62 | the buffer as the constructor writes it; every stored buffer keeps the size of 101 cells |
| Loan.AsWrittenOverrunsOnLongInfo | src/Handler.h:58-62 | the terminator write falls outside the 101-cell buffer exactly when the message is longer than 100 characters |
| Loan.AsWrittenOverrunExample | src/Handler.h:60-62 | a 101-character message makes the terminator write overrun the buffer |
| Loan.StoreInfo | src/Handler.h:58-62 | the corrected store puts the copied characters first and a terminator right after them, inside the buffer |
| Loan.StoreInfoAgreesWhenShort | src/Handler.h:58-62 | for messages of at most 100 characters the code as written and the corrected store leave the same buffer |
| Loan.StoreInfoReadsBack | src/Handler.h:58-75 | reading the corrected buffer back as a C string yields exactly the truncated message |
| Loan.PermissionBoundary | src/Handler.h:99-101 | the permission test `HasPermission` accepts a loan request at exactly its limit, refuses one unit more, and refuses every other business type |
| Loan.HandleSelf | src/Handler.h:118-166 | an approving level answers PASS with "<role> approved" |
| Loan.Handle | src/Handler.h:87-97 | the chain answers PASS exactly when the request is present and some level has permission; an absent request gets "Request is null!", and a present request that is refused gets "this is the last handler.\n" |
| Loan.HandleNext | src/Handler.h:106-112 | a handler without permission answers PASS exactly when a later level has permission, and otherwise NOT_PASS with "this is the last handler.\n" |
| Loan.NullRequestRejected | src/Handler.h:87-90 | an absent request gives NOT_PASS with "Request is null!" |
| Loan.HandleStep | src/Handler.h:92-111 | a permitted head answers itself; otherwise the rest of the chain answers; a last handler without permission rejects with "this is the last handler.\n" |
| Loan.HandleFirstPermitting | src/Handler.h:87-112 | the whole walk answers with the approval of the first level in chain order that has permission |
| Loan.HandleExhausted | src/Handler.h:106-111 | when no level has permission the walk ends in NOT_PASS with "this is the last handler.\n" |
| Loan.OtherBusinessNeverApproved | src/Handler.h:99-101 | a request of another business type is never approved, whatever the amount |
| Loan.FirstPermittingIsLowestCovering | src/Handler.h:92-95 | on a chain of strictly increasing limits the first permitting level is exactly the level with the lowest limit covering the amount |
| Loan.IncreasingChainRouting | src/Handler.h:87-112 | on an increasing chain a loan request is approved by its lowest covering level, and one above the last limit is rejected as exhausted |
| App.InitLoanBusinessChain | src/main.cpp:6-21 | the built chain has five levels, starts at Employee, ends at TopBankManager, and level i (from 0) has limit 10000 × (i + 1), so the limits strictly increase from at least 5000 up to 50000 |
| App.Run | src/main.cpp:23-42 | an amount is refused exactly when the range test `InLoanRange` (5000..50000) fails; every accepted amount is answered PASS by the level of its band |
| App.RunOutcome.ExitStatus | src/main.cpp:29-41 | the program returns 0 exactly when it answered, and -1 for an out-of-range amount |
| App.ExpectedApproverIsLowestCovering | src/main.cpp:7-18 | the band table names, for every amount up to 50000, the lowest-limit level of the built chain that covers it |
| App.BuiltChainBands | src/main.cpp:6-21 | the built chain approves each amount up to 50000 by its band's level, limits included, and rejects larger amounts with "this is the last handler.\n" |
| App.RunApprovesInRange | src/main.cpp:29-35 | every amount in 5000..50000 is approved, by the level of its band |
| App.RunRejectsOutOfRange | src/main.cpp:29-32 | an out-of-range amount never reaches the chain and the program returns -1 |
| App.ConcreteScenarios | src/main.cpp:29-35 | 15000 and 20000 are approved by BankManager; 4999 and 60000 are refused by the range guard |

## Left out

- Console input and output (`printf`, `scanf`) are not modelled. The amount arrives as a parameter of `App.Run`, and the answer is returned rather than printed.
- Reading `%d` into a `uint32_t` is not modelled, because it is part of parsing input.
- Shared-pointer ownership and reference counting are not modelled. The linked handlers are an immutable sequence.
- `setNext` as a runtime mutation is not modelled. The chain is fixed once assembled, and the sequence order is the `next` order.
- Virtual dispatch of `handleSelf` is not modelled. Each subclass differs only in its message, so the role name is data on the level.
- `Request::buildRequest` and the getters are the `Request` datatype's constructor and fields.
- The business-type enumeration has only LOAN_BUSINESS. Any other value cast into it is the single variant `OtherBusiness`.
- Loan.BuildResponse: a message is the contents of a C string, one character per byte and with no NUL inside. A Dafny string with an embedded NUL is kept whole, where `strlen` would stop at the NUL. Every message the program passes is a short literal without NUL.
- Loan.Truncate: counts characters, which equal bytes under the convention above.
- Loan.Handle: requires a non-empty chain, because `handle` is always called on an existing handler object.
- Loan.StoreInfoAsWritten: the buffer's contents before construction are unspecified, so they are a parameter. Undefined behaviour from the overrunning write is shown as `None` instead of memory corruption.
- The strictly increasing order of limits is not enforced by the handler code. `Loan.Handle` works on any chain, and the lowest-covering-level results assume the order.

## Findings

| source | as written | input that shows it | evidently intended | confidence | as-written member | corrected member |
|---|---|---|---|---|---|---|
| src/Handler.h:62 | the terminator is written at `m_info[_len]` with `_len = strlen(info)`, although only `min(_len, MAX_INFO_LEN)` characters were copied into the 101-character buffer | any message of 101 or more characters, e.g. 101 × 'x': the write goes to index 101 or beyond | terminate at the copied length, so the stored message is the first 100 characters | high; not executed | Loan.AsWrittenOverrunExample | Loan.StoreInfoReadsBack |

`Loan.StoreInfoAsWritten` and `Loan.AsWrittenOverrunsOnLongInfo` model the code as written. `Loan.StoreInfo` is the corrected store. `Loan.BuildResponse` uses its truncation rule, `Loan.Truncate`.
