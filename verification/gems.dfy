/** The enumerations the laboratory's records share. */
module Gems {
  datatype StoneStatus =
    | Received | UnderIdentification | Billed | Paid | Certified
    | ReadyForCollection | Collected | OnHold | Cancelled

  datatype BillStatus = Pending | PartiallyPaid | Paid | Cancelled | Expired

  datatype OrderHold = Active | OnHold | Cancelled

  datatype OrderStage =
    | Identifying | ReadyToBill | BillingAttention | AwaitingPayment | PartPaid | InFindings
    | Certified | ReadyForCollection | Collected | OnHold | Cancelled | Empty
}
