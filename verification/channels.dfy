/** Vocabulary shared by the two channel kinds of the library: the action channel
    (no replay) and the store's state channel (replay of the latest value). */
module Channels {

  /** Identifies one subscription on one channel. A channel hands out ids in
      increasing order and never hands out the same id twice, so a cancelled
      subscription can never be revived by a later subscribe. */
  type SubscriptionId = nat

  /** What a subscribe call yields: the channel with the new subscription in it,
      and the handle by which that subscription can later be cancelled. */
  datatype Subscribed<C> = Subscribed(channel: C, id: SubscriptionId)

  /** A proof step only, modelling nothing: the per-step delivery lemmas of both
      channel kinds call it to regroup a log built from three parts, which keeps
      those proofs cheap for the solver. */
  lemma ConcatAssoc<T>(a: seq<T>, b: seq<T>, c: seq<T>)
    ensures (a + b) + c == a + (b + c)
  {
  }
}
