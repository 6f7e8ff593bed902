/**
 * Captured messages, reduced to what the correlation check reads from them:
 * the capture time stamp, the kind of message, and for each metric state the
 * message carries, its handle and activation state.
 */
module Messages {
  import Biceps

  datatype MessageKind = GetMdibResponse | EpisodicMetricReport

  datatype Message = Message(
    timestamp: int,
    kind: MessageKind,
    states: map<string, Biceps.ComponentActivation>)
}
