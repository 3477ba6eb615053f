/**
 * When lost LLD objects are deleted or disabled: the overflow-safe end-of-life
 * timestamp, the lifetime timestamp for each lifetime type and the check whether
 * that time has passed.
 */
module LldLifetime {
  import opened LldTypes

  /**
   * `lastcheck + lifetime`, saturated at ZBX_JAN_2038. The difference and the sum
   * are both typed as C `int`s, so their verification is the proof that neither
   * computation overflows.
   */
  function EndOfLife(lastcheck: Timestamp, lifetime: Timestamp): (r: Timestamp)
    ensures r <= JAN_2038
    ensures lastcheck + lifetime < JAN_2038 ==> r == lastcheck + lifetime
    ensures lastcheck + lifetime >= JAN_2038 ==> r == JAN_2038
  {
    var headroom: Int32 := JAN_2038 - lastcheck;
    if headroom > lifetime then
      var sum: Int32 := lastcheck + lifetime;
      sum
    else
      JAN_2038
  }

  /** The timestamp at which the lifetime of an object last seen at `lastcheck` ends;
      0 stands for "never" and 1 for "already". */
  function LifetimeTs(lastcheck: Timestamp, lifetime: Lifetime): (ts: Timestamp)
    ensures lifetime.kind == After ==> ts == EndOfLife(lastcheck, lifetime.duration)
    ensures lifetime.kind == Immediately ==> ts == 1
    ensures lifetime.kind == Never ==> ts == 0
  {
    match lifetime.kind
    case After => EndOfLife(lastcheck, lifetime.duration)
    case Immediately => 1
    case Never => 0
  }

  /** Whether the lifetime ending at `ts` is over at time `now`; `ts == 0` never ends. */
  predicate LifetimeElapsed(now: Timestamp, ts: Timestamp): (r: bool)
    ensures r <==> ts != 0 && now > ts
  {
    !(ts == 0 || now <= ts)
  }

  /** The meaning of a lifetime, independent of the timestamp encoding: "never" is
      never over, "immediately" is over from time 2 on, and "after d" is over once
      `now` is past the saturated sum `lastcheck + d`. */
  lemma LifetimeElapsedMeaning(now: Timestamp, lastcheck: Timestamp, lifetime: Lifetime)
    ensures LifetimeElapsed(now, LifetimeTs(lastcheck, lifetime)) <==>
      match lifetime.kind
      case Never => false
      case Immediately => now > 1
      case After =>
        now > (if lastcheck + lifetime.duration < JAN_2038 then lastcheck + lifetime.duration else JAN_2038)
          && (lastcheck + lifetime.duration > 0)
  {
  }
}
