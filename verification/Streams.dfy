/** What the three stream relays share: token usage, the caller's `emit`, and outcomes. */
module Streams {
  import opened Options
  import opened Json

  /** The most a frame buffer holds. */
  const MAX_FRAME := 0x10_0000

  predicate HasPrefix(s: string, prefix: string) {
    |prefix| <= |s| && s[..|prefix|] == prefix
  }

  /** A line the relays take data from. */
  predicate IsData(line: string) {
    HasPrefix(line, "data:")
  }

  /** How a relay call ends; only `Ok` is a nil error. */
  datatype Outcome = Ok | ErrResponse | ErrEmit | ErrScan

  /** The value of a usage record; an unknown counter is `None`, never zero. */
  datatype Usage = Usage(input: Option<int>, output: Option<int>, complete: bool)

  /** A counter that, when known, is a non-negative int64. */
  predicate InRange(n: Option<int>) {
    n.Some? ==> 0 <= n.value <= MAX_INT64
  }

  const UNKNOWN := Usage(None, None, false)

  /** The usage record the relays write through a pointer. */
  class Meter {
    var input: Option<int>
    var output: Option<int>
    var complete: bool

    constructor ()
      ensures Value() == UNKNOWN
    {
      input, output, complete := None, None, false;
    }

    function Value(): Usage
      reads this
    {
      Usage(input, output, complete)
    }
  }

  /**
   The caller's `emit` callback. `accepts(i)` says whether the call that follows
   `i` delivered frames succeeds, so it ranges over every pattern of failures.
   */
  class Sink<F> {
    const accepts: nat -> bool
    var frames: seq<F>

    constructor (accepts: nat -> bool)
      ensures this.accepts == accepts && frames == []
    {
      this.accepts := accepts;
      frames := [];
    }

    method Emit(frame: F) returns (ok: bool)
      modifies this
      ensures ok == accepts(|old(frames)|)
      ensures frames == if ok then old(frames) + [frame] else old(frames)
    {
      ok := accepts(|frames|);
      if ok {
        frames := frames + [frame];
      }
    }
  }

  /** The reports of one usage obj, in the field names of either protocol. */
  function Observe(u: Usage, raw: Option<Json>, input: string, output: string): Usage {
    match AsObject(raw)
    case Some(Some(fields)) =>
      Usage(
        if Counter(Get(fields, input)).Some? then Counter(Get(fields, input)) else u.input,
        if Counter(Get(fields, output)).Some? then Counter(Get(fields, output)) else u.output,
        u.complete)
    case _ => u
  }

  method ObserveUsage(obj: Fields, u: Meter, anthropic: bool)
    modifies u
    ensures u.Value() ==
            if anthropic then Observe(old(u.Value()), Get(obj, "usage"), "input_tokens", "output_tokens")
            else Observe(old(u.Value()), Get(obj, "usage"), "prompt_tokens", "completion_tokens")
  {
    match AsObject(Get(obj, "usage")) {
      case Some(Some(usage)) =>
        var input, output := "prompt_tokens", "completion_tokens";
        if anthropic {
          input, output := "input_tokens", "output_tokens";
        }
        var in_ := AsInt64(Get(usage, input));
        if in_.Some? && in_.value.Some? && in_.value.value >= 0 {
          u.input := in_.value;
        }
        var out := AsInt64(Get(usage, output));
        if out.Some? && out.value.Some? && out.value.value >= 0 {
          u.output := out.value;
        }
      case _ =>
    }
  }
}
