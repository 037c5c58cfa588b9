/** `Operation`: the status and messages of a request that can fail. */
module Operations {

  /** `OperationStatus`. */
  datatype OperationStatus = NotStarted | InProgress | Success | Failure

  class Operation {
    var status: OperationStatus
    var progressMessage: string
    var errorMessage: string
    var isShowingErrorMessage: bool

    /** The defaults of a new operation. */
    constructor ()
      ensures status == NotStarted && progressMessage == "Loading..."
      ensures errorMessage == "An error occurred." && !isShowingErrorMessage
    {
      status := NotStarted;
      progressMessage := "Loading...";
      errorMessage := "An error occurred.";
      isShowingErrorMessage := false;
    }

    /** `setError`: the failure state with `message` shown; the progress
        message is kept. */
    method SetError(message: string)
      modifies this
      ensures errorMessage == message && status == Failure && isShowingErrorMessage
      ensures progressMessage == old(progressMessage)
    {
      errorMessage := message;
      status := Failure;
      isShowingErrorMessage := true;
    }
  }

  /** Setting the same error twice leaves the operation as setting it once. */
  method SetErrorTwice(op: Operation, message: string)
    modifies op
    ensures op.errorMessage == message && op.status == Failure && op.isShowingErrorMessage
    ensures op.progressMessage == old(op.progressMessage)
  {
    op.SetError(message);
    ghost var once := (op.status, op.progressMessage, op.errorMessage, op.isShowingErrorMessage);
    op.SetError(message);
    assert (op.status, op.progressMessage, op.errorMessage, op.isShowingErrorMessage) == once;
  }
}
