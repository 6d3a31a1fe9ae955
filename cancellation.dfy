/**
 * `vscode.CancellationToken`. Its `isCancellationRequested` flag is set by
 * another party at a moment the analyzers cannot predict; the model fixes
 * that moment as the number of reads answered `false` before the flag is
 * seen set, and counts the reads. Once set, the flag stays set.
 */
module Cancellation {

  class CancellationToken {
    const signalAfter: nat
    var polls: nat

    constructor (signalAfter: nat)
      ensures this.signalAfter == signalAfter && polls == 0
    {
      this.signalAfter := signalAfter;
      polls := 0;
    }

    predicate Signalled()
      reads this
    {
      polls >= signalAfter
    }

    /** Reading `isCancellationRequested`. */
    method IsCancellationRequested() returns (b: bool)
      modifies this
      ensures polls == old(polls) + 1
      ensures b <==> old(polls) >= signalAfter
      ensures old(Signalled()) ==> b
    {
      b := polls >= signalAfter;
      polls := polls + 1;
    }
  }

  /** No read of the flag has answered `true` so far; a missing token never does. */
  predicate Quiet(token: CancellationToken?)
    reads token
  {
    token == null || token.polls <= token.signalAfter
  }

  /** The next read of the flag will answer `true`. */
  predicate Raised(token: CancellationToken?)
    reads token
  {
    token != null && token.Signalled()
  }

  /** `token?.isCancellationRequested` for an optional token: a missing token never cancels. */
  method Cancelled(token: CancellationToken?) returns (b: bool)
    modifies token
    ensures token == null ==> !b
    ensures token != null ==> token.polls == old(token.polls) + 1 && (b <==> old(token.polls) >= token.signalAfter)
  {
    if token == null {
      return false;
    }
    b := token.IsCancellationRequested();
  }
}
