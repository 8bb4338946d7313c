/** The error codes of the fair launch program that the model raises. */
module FairLaunchErrors {
  datatype Error =
    | NumericalOverflowError
    | TimestampsDontLineUp
    | UuidMustBeExactly6Length
    | TickSizeTooSmall
    | CannotGiveZeroTokens
    | InvalidPriceRanges
    | InvalidLotteryDuration
    | InvalidReserveBp
    | InvalidAntiRugTokenRequirement
    | CannotUseTickSizeThatGivesRemainder
    | TooMuchGranularityInRange
    | CannotUpdateFairLaunchDataOnceInProgress
    | LotteryBitmapOnesMustEqualNumberOfTicketsSold
    | CannotSetFairLaunchLotteryUntilAllTicketsAreSequenced
    | CannotCreateFairLaunchLotteryBitmapBeforePhaseTwoEnd
    | CannotBuyTicketsOutsidePhaseOne
    | InvalidPurchaseAmount
    | NotEnoughFunds
    | TransferFailed
    | SeqAlreadyExists
    | InvalidFairLaunchTicketState
    | CanOnlySubmitZeroDuringPhaseThree
    | CanOnlySubmitDifferenceDuringPhaseThree
    | DidNotWinLotteryCanOnlyWithdraw
    | DuringPhaseTwoAndOneBuyerMustBeSigner
    | PhaseTwoEnded
    | CannotPunchTicketUntilPhaseThree
    | CannotPunchTicketUntilEqualized
    | TokenMintToFailed
    | TokenBurnFailed
    | CannotCashOutUntilAllRefundsAndPunchesHaveBeenProcessed
    | CannotCashOutUntilPhaseThree
    | AlreadyWithdrawnCapitalAlotment
    | CannotRefundUntilAllTicketsHaveBeenPunchedOrDropped
    | CannotRefundUntilPhaseThree
    | NoAntiRugSetting
    | SelfDestructNotPassed
    | PhaseThreeAlreadyStarted
    | PhaseTwoHasntEndedYet
    | LotteryDurationHasntEndedYet
    | CannotMintTokensUntilAllCashedOut
    | CannotMintMoreTokensThanTotal
      // An account the instruction needs does not exist, or one it creates already does.
    | AccountMissing
    | AccountAlreadyInUse
      // An index out of bounds or a subtraction below zero aborts the transaction.
    | Aborted
}
