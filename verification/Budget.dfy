/** Token accounting across the attempts of one stream. */
module Budget {
  import opened Options
  import opened Utf8

  datatype Usage = Usage(prompt: nat, completion: nat, total: nat, estimated: bool)

  /** `bytes` is the length of the accepted text. */
  datatype Progress = Progress(bytes: nat, usage: Usage, exact: bool, completionBase: nat, promptBase: nat,
                               baseEstimated: bool, bytesAtUsage: nat)

  function Max(a: nat, b: nat): nat { if a < b then b else a }

  /** A report counts from the start of its attempt and never lowers a total. */
  function Applied(p: Progress, bytes: nat, report: Option<Usage>): Progress {
    var q := p.(bytes := p.bytes + bytes);
    if report.None? then q
    else
      var prompt := Max(p.usage.prompt, p.promptBase + report.value.prompt);
      var completion := Max(p.usage.completion, p.completionBase + report.value.completion);
      q.(usage := Usage(prompt, completion, prompt + completion, p.baseEstimated || report.value.estimated),
         exact := true, bytesAtUsage := q.bytes)
  }

  /** Every byte that no report covers counts as one token. */
  function Snapshot(p: Progress): Usage {
    var extra := if p.bytes > p.bytesAtUsage then p.bytes - p.bytesAtUsage else 0;
    if !p.exact || extra != 0
    then Usage(p.usage.prompt, p.usage.completion + extra, p.usage.prompt + p.usage.completion + extra, true)
    else p.usage
  }

  function Begun(p: Progress): Progress {
    var u := Snapshot(p);
    Progress(p.bytes, u, !u.estimated, u.completion, u.prompt, u.estimated, p.bytes)
  }

  class StreamProgress {
    var text: seq<byte>
    var usage: Usage
    var exact: bool
    var completionBase: nat
    var promptBase: nat
    var baseEstimated: bool
    var bytesAtUsage: nat

    ghost function View(): Progress
      reads this
    {
      Progress(|text|, usage, exact, completionBase, promptBase, baseEstimated, bytesAtUsage)
    }

    constructor ()
      ensures View() == Fresh() && text == []
    {
      text, usage, exact := [], Usage(0, 0, 0, false), false;
      completionBase, promptBase, baseEstimated, bytesAtUsage := 0, 0, false, 0;
    }

    method Apply(delta: seq<byte>, report: Option<Usage>)
      modifies this
      ensures text == old(text) + delta && View() == Applied(old(View()), |delta|, report)
    {
      text := text + delta;
      if report.Some? {
        var completion := completionBase + report.value.completion;
        var prompt := promptBase + report.value.prompt;
        if completion > usage.completion { usage := usage.(completion := completion); }
        if prompt > usage.prompt { usage := usage.(prompt := prompt); }
        usage := usage.(total := usage.prompt + usage.completion);
        usage := usage.(estimated := baseEstimated || report.value.estimated);
        exact := true;
        bytesAtUsage := |text|;
      }
    }

    method TakeSnapshot() returns (accepted: seq<byte>, u: Usage)
      ensures accepted == text && u == Snapshot(View())
    {
      u := usage;
      var extra: int := |text| - bytesAtUsage;
      if extra < 0 { extra := 0; }
      if !exact || extra != 0 {
        u := u.(completion := u.completion + extra);
        u := u.(total := u.prompt + u.completion, estimated := true);
      }
      accepted := text;
    }

    method BeginAttempt()
      modifies this
      ensures text == old(text) && View() == Begun(old(View()))
    {
      var _, u := TakeSnapshot();
      usage, completionBase, promptBase, baseEstimated := u, u.completion, u.prompt, u.estimated;
      bytesAtUsage := |text|;
      exact := !u.estimated;
    }
  }

  function Fresh(): Progress { Progress(0, Usage(0, 0, 0, false), false, 0, 0, false, 0) }

  /** The limit of the next attempt, or none if the budget is spent. */
  method RecomputeTokenLimit(original: nat, emitted: nat) returns (remaining: Option<nat>)
    ensures remaining.Some? <==> emitted < original
    ensures remaining.Some? ==> remaining.value > 0 && emitted + remaining.value == original
  {
    if original <= emitted { return None; }
    return Some(original - emitted);
  }

  /** `visible` counts the tokens the client was shown, `earlier` those of the
      attempts before this one, and `limit` is what this attempt may produce.
      `past` and `now` are the reported totals: the greatest report of each
      finished attempt added up, and the greatest of this one. */
  datatype Stream = Stream(progress: Progress, visible: nat, earlier: nat, limit: nat, past: Reported, now: Reported)

  datatype Reported = Reported(prompt: nat, completion: nat)

  datatype Step = Chunk(bytes: nat, tokens: nat, report: Option<Usage>) | Migrate

  /** The attempt keeps to its limit, shows no token without a byte, and reports
      no less than it has shown. */
  predicate Fair(s: Stream, a: Step) {
    a.Chunk? ==>
      var shown := s.visible - s.earlier + a.tokens;
      a.tokens <= a.bytes && shown <= s.limit && (a.report.Some? ==> shown <= a.report.value.completion)
  }

  function Greatest(r: Reported, report: Option<Usage>): Reported {
    if report.None? then r
    else Reported(Max(r.prompt, report.value.prompt), Max(r.completion, report.value.completion))
  }

  function Next(s: Stream, a: Step, original: nat): Stream {
    match a
    case Chunk(bytes, tokens, report) =>
      s.(progress := Applied(s.progress, bytes, report), visible := s.visible + tokens, now := Greatest(s.now, report))
    case Migrate =>
      var emitted := Snapshot(s.progress).completion;
      if original <= emitted then s
      else Stream(Begun(s.progress), s.visible, s.visible, original - emitted,
                  Reported(s.past.prompt + s.now.prompt, s.past.completion + s.now.completion), Reported(0, 0))
  }

  ghost predicate Run(s: Stream, steps: seq<Step>, t: Stream, original: nat)
    decreases |steps|
  {
    if steps == [] then s == t else Fair(s, steps[0]) && Run(Next(s, steps[0], original), steps[1..], t, original)
  }

  function Start(original: nat): Stream { Stream(Fresh(), 0, 0, original, Reported(0, 0), Reported(0, 0)) }

  /** The accounting never counts fewer tokens than were shown. */
  predicate Covered(s: Stream, original: nat) {
    var p := s.progress;
    && p.bytesAtUsage <= p.bytes && p.usage.total == p.usage.prompt + p.usage.completion
    && s.earlier <= s.visible && s.earlier <= p.completionBase <= p.usage.completion
    && s.visible <= p.usage.completion + (p.bytes - p.bytesAtUsage)
    && s.visible <= s.earlier + s.limit <= original
  }

  /** Prompt tokens are what was reported; so are completion tokens as long as
      no attempt had to be estimated. */
  predicate Honest(s: Stream) {
    var p := s.progress;
    && p.promptBase == s.past.prompt && p.usage.prompt == s.past.prompt + s.now.prompt
    && p.usage.completion == p.completionBase + s.now.completion
    && (!p.baseEstimated ==> p.completionBase == s.past.completion)
    && (p.baseEstimated && p.exact ==> p.usage.estimated)
  }

  lemma NextKeeps(s: Stream, a: Step, original: nat)
    requires Covered(s, original) && Honest(s) && Fair(s, a)
    ensures Covered(Next(s, a, original), original) && Honest(Next(s, a, original))
  {
  }

  lemma {:induction false} RunKeeps(s: Stream, steps: seq<Step>, t: Stream, original: nat)
    requires Covered(s, original) && Honest(s) && Run(s, steps, t, original)
    ensures Covered(t, original) && Honest(t)
    decreases |steps|
  {
    if steps != [] {
      NextKeeps(s, steps[0], original);
      RunKeeps(Next(s, steps[0], original), steps[1..], t, original);
    }
  }

  /** Over any number of attempts the client is shown at most the tokens it
      asked for, no fewer are accounted for, and the total adds up. */
  lemma BudgetHolds(steps: seq<Step>, t: Stream, original: nat)
    requires Run(Start(original), steps, t, original)
    ensures t.visible <= original
    ensures var u := Snapshot(t.progress); t.visible <= u.completion && u.total == u.prompt + u.completion
  {
    RunKeeps(Start(original), steps, t, original);
  }

  /** Prompt tokens are always those the attempts reported, and unless the
      snapshot is marked as an estimate so are the completion tokens. */
  lemma UsageHonest(steps: seq<Step>, t: Stream, original: nat)
    requires Run(Start(original), steps, t, original)
    ensures var u := Snapshot(t.progress);
      && u.prompt == t.past.prompt + t.now.prompt
      && (!u.estimated ==> u.completion == t.past.completion + t.now.completion)
  {
    RunKeeps(Start(original), steps, t, original);
  }
}
