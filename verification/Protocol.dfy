/** The messages two link sets exchange over a link. */
module Protocol {
  import opened Prelude
  import opened Epochs

  datatype LinkProtocol =
    | Reset(epoch: Option<Epoch>, request: bool)
    | Ack(ackEpoch: nat, ackSeq: nat, lastIndex: nat)
    | MsgSlice(msgEpoch: nat, seqNo: nat, seqLen: nat, firstIndex: nat, data: Payload)
    | Ping
    | Pong
}
