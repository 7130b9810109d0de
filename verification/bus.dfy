/** Writes the MPU-9250 driver issues over I2C, and the bank-boundary rule
    of its DMP memory accessors (mpu_write_mem / mpu_read_mem). The bus
    itself is not modelled: whether each transfer is acknowledged is an
    input. */
module Bus {
  import opened Bytes
  import opened ImuTypes

  /** MPU6500_BANK_SIZE: DMP memory is addressed as (bank << 8 | offset). */
  const BANK_SIZE: int := 256

  /** One transfer: a single register byte, or a block of DMP memory. */
  datatype BusWrite =
    | Reg(reg: byte, value: byte)
    | Mem(addr: uint16, bytes: seq<byte>)

  /** A step of a register sequence; `checked` is false for the writes
      whose result the driver ignores. */
  datatype Step = Step(write: BusWrite, checked: bool)

  /** The bank check of mpu_write_mem / mpu_read_mem: the low address byte
      plus the length may not pass the end of the 256-byte bank. */
  predicate MemAccessAllowed(addr: uint16, length: int)
  {
    addr % 256 + length <= BANK_SIZE
  }

  /** The check means exactly that the accessed bytes lie in one bank. */
  lemma MemAccessStaysInBank(addr: uint16, length: int)
    requires length >= 1
    ensures MemAccessAllowed(addr, length) <==> (addr + length - 1) / 256 == addr / 256
  {
    var lo := addr % 256;
    assert addr == (addr / 256) * 256 + lo;
    if lo + length <= 256 {
      assert (addr + length - 1) == (addr / 256) * 256 + (lo + length - 1);
    } else {
      assert (addr + length - 1) == (addr / 256 + 1) * 256 + (lo + length - 1 - 256);
    }
  }

  /** mpu_write_mem: -1 when the bank check fails (nothing is sent) or
      when either the bank-select write or the data write fails. */
  function WriteMem(addr: uint16, data: seq<byte>, selectAck: bool, dataAck: bool): (ret: int)
    ensures ret == 0 || ret == -1
    ensures ret == 0 <==> MemAccessAllowed(addr, |data|) && selectAck && dataAck
  {
    if !MemAccessAllowed(addr, |data|) then -1
    else if !selectAck then -1
    else if !dataAck then -1
    else 0
  }

  /** mpu_read_mem: -1 on the bank check, a failed bank select, or a read
      that does not return exactly `length` bytes. */
  function ReadMem(addr: uint16, length: int, selectAck: bool, got: Option<seq<byte>>): (r: Option<seq<byte>>)
    ensures r.Some? <==> MemAccessAllowed(addr, length) && selectAck && got.Some? && |got.value| == length
    ensures r.Some? ==> r == got
  {
    if !MemAccessAllowed(addr, length) then None
    else if !selectAck then None
    else if got.None? || |got.value| != length then None
    else got
  }

  /** Whether one write goes through: a memory write must also pass the
      bank check, whatever the bus does. */
  predicate Lands(w: BusWrite, ack: bool)
  {
    ack && (w.Mem? ==> MemAccessAllowed(w.addr, |w.bytes|))
  }

  /** Outcome of running a register sequence: the return code and how many
      steps were issued before the driver gave up. */
  datatype PlanResult = PlanResult(ret: int, issued: nat)

  /** Issue the steps in order; the first checked step that does not land
      makes the sequence return -1 with nothing after it issued. */
  function RunPlan(plan: seq<Step>, acks: seq<bool>): (r: PlanResult)
    requires |acks| == |plan|
    ensures r.ret == 0 || r.ret == -1
    ensures r.issued <= |plan|
    decreases |plan|
  {
    if |plan| == 0 then PlanResult(0, 0)
    else if plan[0].checked && !Lands(plan[0].write, acks[0]) then PlanResult(-1, 1)
    else
      var rest := RunPlan(plan[1..], acks[1..]);
      PlanResult(rest.ret, rest.issued + 1)
  }

  /** A sequence succeeds exactly when every checked step lands, and then
      every step is issued; on failure, the last issued step is the first
      checked step that did not land. */
  lemma {:induction false} RunPlanSpec(plan: seq<Step>, acks: seq<bool>)
    requires |acks| == |plan|
    ensures RunPlan(plan, acks).ret == 0 <==>
      forall i :: 0 <= i < |plan| && plan[i].checked ==> Lands(plan[i].write, acks[i])
    ensures RunPlan(plan, acks).ret == 0 ==> RunPlan(plan, acks).issued == |plan|
    ensures RunPlan(plan, acks).ret == -1 ==>
      var k := RunPlan(plan, acks).issued - 1;
      0 <= k < |plan| && plan[k].checked && !Lands(plan[k].write, acks[k]) &&
      forall i :: 0 <= i < k && plan[i].checked ==> Lands(plan[i].write, acks[i])
    decreases |plan|
  {
    if |plan| > 0 && !(plan[0].checked && !Lands(plan[0].write, acks[0])) {
      RunPlanSpec(plan[1..], acks[1..]);
      forall i | 1 <= i < |plan|
        ensures plan[i] == plan[1..][i - 1] && acks[i] == acks[1..][i - 1]
      {
      }
    }
  }
}
