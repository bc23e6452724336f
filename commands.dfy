// Small command patterns shared by both revisions of the renderer: waits that
// are re-issued while the driver reports a timeout, the wait for a window
// with a non-zero framebuffer, and one-shot ("disposable") command buffers.
module Commands {
  import opened Vk
  import opened Gpu
  import opened Recordings

  /** Some answer in the sequence ends the retry loop. */
  predicate Settles(answers: seq<VkResult>)
  {
    exists k :: 0 <= k < |answers| && answers[k] != Timeout
  }

  /** Index of the first answer that is not a timeout. */
  function FirstSettled(answers: seq<VkResult>): (k: nat)
    requires Settles(answers)
    ensures k < |answers| && answers[k] != Timeout
    ensures forall j :: 0 <= j < k ==> answers[j] == Timeout
  {
    if answers[0] != Timeout then 0
    else
      assert Settles(answers[1..]) by {
        var k :| 0 <= k < |answers| && answers[k] != Timeout;
        assert answers[1..][k - 1] == answers[k];
      }
      1 + FirstSettled(answers[1..])
  }

  /** `n` copies of one call. */
  function Repeat(c: Call, n: nat): (r: seq<Call>)
    ensures |r| == n
    ensures forall i :: 0 <= i < n ==> r[i] == c
  {
    if n == 0 then [] else Repeat(c, n - 1) + [c]
  }

  /** `while (wait() == eTimeout) { warn }`: the wait is issued once per answer
      up to and including the first answer that is not a timeout; that answer
      is not inspected further, so a timeout is never an error. */
  method RetryWhileTimeout(dev: Device, call: Call, answers: seq<VkResult>) returns (attempts: nat)
    requires Settles(answers)
    modifies dev`calls
    ensures attempts == FirstSettled(answers) + 1
    ensures dev.calls == old(dev.calls) + Repeat(call, attempts)
  {
    var answer := answers[0];
    dev.calls := dev.calls + [call];
    attempts := 1;
    while answer == Timeout
      invariant 1 <= attempts <= FirstSettled(answers) + 1
      invariant answer == answers[attempts - 1]
      invariant dev.calls == old(dev.calls) + Repeat(call, attempts)
      decreases FirstSettled(answers) + 1 - attempts
    {
      answer := answers[attempts];
      dev.calls := dev.calls + [call];
      attempts := attempts + 1;
    }
  }

  predicate NonZero(e: Extent2D)
  {
    e.width != 0 && e.height != 0
  }

  /** Some report in the sequence has both dimensions non-zero. */
  predicate EventuallyNonZero(reports: seq<Extent2D>)
  {
    exists k :: 0 <= k < |reports| && NonZero(reports[k])
  }

  /** Index of the first report with both dimensions non-zero. */
  function FirstNonZero(reports: seq<Extent2D>): (k: nat)
    requires EventuallyNonZero(reports)
    ensures k < |reports| && NonZero(reports[k])
    ensures forall j :: 0 <= j < k ==> !NonZero(reports[j])
  {
    if NonZero(reports[0]) then 0
    else
      assert EventuallyNonZero(reports[1..]) by {
        var k :| 0 <= k < |reports| && NonZero(reports[k]);
        assert reports[1..][k - 1] == reports[k];
      }
      1 + FirstNonZero(reports[1..])
  }

  /** `while (w == 0 || h == 0) { size = getFramebufferSize(); waitEvents(); }`:
      successive reports of the window's framebuffer size are read until one
      has both dimensions non-zero; that report is the result. */
  method WaitForNonZeroFramebuffer(reports: seq<Extent2D>) returns (size: Extent2D, consumed: nat)
    requires EventuallyNonZero(reports)
    ensures consumed == FirstNonZero(reports) + 1
    ensures size == reports[consumed - 1] && NonZero(size)
  {
    size := reports[0];
    consumed := 1;
    while !NonZero(size)
      invariant 1 <= consumed <= FirstNonZero(reports) + 1
      invariant size == reports[consumed - 1]
      decreases FirstNonZero(reports) + 1 - consumed
    {
      size := reports[consumed];
      consumed := consumed + 1;
    }
  }

  /** What `disposableCommands(func)` issues for a recorder `func` that, given
      the fresh command buffer, records `Recorded(cmd, rec)`. */
  function DisposableCalls(cmd: Handle, rec: Recording, idleAttempts: nat): seq<Call>
  {
    [AllocateCommandBuffer(cmd), BeginCommandBuffer(cmd, true)] + Recorded(cmd, rec)
      + [EndCommandBuffer(cmd), Submit([cmd], [], [], NULL_HANDLE)]
      + Repeat(QueueWaitIdle, idleAttempts)
      + [FreeCommandBuffer(cmd)]
  }

  /** The one-shot buffer is allocated and begun before the recording,
      ended and submitted after it, waited on, and freed last. */
  lemma DisposableShape(cmd: Handle, rec: Recording, idleAttempts: nat)
    ensures var r, n := DisposableCalls(cmd, rec, idleAttempts), |Recorded(cmd, rec)|;
      |r| == 5 + n + idleAttempts
      && r[0] == AllocateCommandBuffer(cmd) && r[1] == BeginCommandBuffer(cmd, true)
      && r[2..2 + n] == Recorded(cmd, rec)
      && r[2 + n] == EndCommandBuffer(cmd) && r[3 + n] == Submit([cmd], [], [], NULL_HANDLE)
      && r[|r| - 1] == FreeCommandBuffer(cmd)
  {
    var head := [AllocateCommandBuffer(cmd), BeginCommandBuffer(cmd, true)];
    var body := Recorded(cmd, rec);
    var tail := [EndCommandBuffer(cmd), Submit([cmd], [], [], NULL_HANDLE)];
    var r := head + body + tail + Repeat(QueueWaitIdle, idleAttempts) + [FreeCommandBuffer(cmd)];
    assert r == DisposableCalls(cmd, rec, idleAttempts);
    assert (head + body + tail)[2..2 + |body|] == body;
  }

  /** A one-shot command buffer: allocate, begin with one-time-submit, record,
      end, submit without a fence, wait for the queue to drain (retrying on
      timeout), free. */
  method DisposableCommands(dev: Device, rec: Recording, idleAnswers: seq<VkResult>)
    returns (cmd: Handle)
    requires Settles(idleAnswers)
    modifies dev
    ensures cmd == old(dev.nextHandle) && dev.nextHandle == cmd + 1
    ensures dev.calls == old(dev.calls) + DisposableCalls(cmd, rec, FirstSettled(idleAnswers) + 1)
  {
    cmd := dev.NewHandle();
    dev.calls := dev.calls + [AllocateCommandBuffer(cmd), BeginCommandBuffer(cmd, true)];
    Record(dev, cmd, rec);
    dev.calls := dev.calls + [EndCommandBuffer(cmd), Submit([cmd], [], [], NULL_HANDLE)];
    var attempts := RetryWhileTimeout(dev, QueueWaitIdle, idleAnswers);
    dev.calls := dev.calls + [FreeCommandBuffer(cmd)];
  }

  /** The disposable buffer is freed as the very last call, after every wait
      on the queue: nothing recorded in it is still pending when it is freed. */
  lemma {:induction false} DisposableFreesAfterIdle(cmd: Handle, rec: Recording, idleAttempts: nat)
    requires idleAttempts >= 1
    ensures var r := DisposableCalls(cmd, rec, idleAttempts);
      r[|r| - 2] == QueueWaitIdle && r[|r| - 1] == FreeCommandBuffer(cmd)
  {
    var r := DisposableCalls(cmd, rec, idleAttempts);
    var head := [AllocateCommandBuffer(cmd), BeginCommandBuffer(cmd, true)] + Recorded(cmd, rec)
      + [EndCommandBuffer(cmd), Submit([cmd], [], [], NULL_HANDLE)];
    assert r == head + Repeat(QueueWaitIdle, idleAttempts) + [FreeCommandBuffer(cmd)];
    assert r[|r| - 2] == Repeat(QueueWaitIdle, idleAttempts)[idleAttempts - 1];
  }
}
