/**
 * The message buffer seen by user processes (`MSG_BUF` of msg_buf.h), the
 * message-type tags and process ids the processes use, the C-string length, and
 * the kernel calls a user process makes, recorded as actions.
 *
 * rtx.h, which defines `KCD_REG`, `DEFAULT` and the `PID_*` constants, is not
 * part of this model: the values below are placeholders, and nothing proved
 * depends on them beyond their being distinct.
 */
module Ipc {

  /** `MSG_BUF`: a type tag and the text of the message. */
  datatype MsgBuf = MsgBuf(mtype: int, mtext: seq<char>)

  const DEFAULT: int := 0
  const KCD_REG: int := 1

  const PID_C: int := 6
  const PID_CLOCK: int := 8
  const PID_KCD: int := 12
  const PID_CRT: int := 13

  /**
   * What a user process asks of the kernel.  `SendNew` and `SendCopy` stand for
   * a freshly requested block: only the bytes the process wrote into it are
   * recorded (`text` is written from the start of `mtext`), the rest of the
   * block is whatever it held before.
   */
  datatype Action =
    | Send(dest: int, msg: MsgBuf)                         // send_message of a held message
    | SendNew(dest: int, mtype: int, text: seq<char>)      // request, set mtype and text, send
    | SendCopy(dest: int, text: seq<char>)                 // copyMessage then send: text only
    | DelayedSend(dest: int, msg: MsgBuf, delay: int)      // delayed_send of a held message
    | DelayedSendNew(dest: int, mtype: int, delay: int)    // request, set mtype, delayed_send
    | Release(msg: MsgBuf)                                 // release_memory_block

  /**
   * The bytes of the envelope in front of every message: `next`, `sender_id`,
   * `recv_id` and the `send_time` the timer sorts by, four bytes each.  The
   * declared struct has only the first three; the timer's reads of `send_time`
   * need the fourth.
   */
  const ENVELOPE_SIZE: int := 16

  /** Addresses are 32 bits wide. */
  const U32_LIMIT: int := 0x1_0000_0000

  /** What unsigned 32-bit arithmetic keeps of `x`: its residue modulo 2^32. */
  function Wrap(x: int): (r: int)
    ensures 0 <= r < U32_LIMIT
  {
    x % 0x1_0000_0000
  }

  /** msg_buf_to_envelope: one envelope before the message, in 32-bit address arithmetic. */
  function MsgBufToEnvelope(m: int): (e: int)
    ensures 0 <= e < U32_LIMIT && Wrap(e + ENVELOPE_SIZE) == Wrap(m)
  {
    Wrap(m - ENVELOPE_SIZE)
  }

  /** envelope_to_msg_buf: just past the envelope. */
  function EnvelopeToMsgBuf(e: int): (m: int)
    ensures 0 <= m < U32_LIMIT && Wrap(m - ENVELOPE_SIZE) == Wrap(e)
  {
    Wrap(e + ENVELOPE_SIZE)
  }

  /** The two conversions undo each other on 32-bit addresses. */
  lemma EnvelopeRoundTrip(m: int, e: int)
    requires 0 <= m < U32_LIMIT && 0 <= e < U32_LIMIT
    ensures EnvelopeToMsgBuf(MsgBufToEnvelope(m)) == m
    ensures MsgBufToEnvelope(EnvelopeToMsgBuf(e)) == e
  {
  }

  /** Index of the first NUL, or the length when there is none. */
  function Strlen(s: seq<char>): (n: nat)
    ensures n <= |s|
    ensures forall i :: 0 <= i < n ==> s[i] != '\0'
    ensures n < |s| ==> s[n] == '\0'
  {
    if s == [] || s[0] == '\0' then 0 else 1 + Strlen(s[1..])
  }
}
