/** The hand-off between producer and consumer in core/cppcoro/async_generator.hpp, the variant
    without symmetric transfer: every atomic access to m_state and every resume or destroy is one
    step, and the steps of the two coroutines interleave freely. */
module AsyncGenerator {
  /** Whatever the generator yields. */
  type Value(==)

  /** state, lines 555-562. */
  datatype Flag = NotReadyActive | NotReadySuspended | ReadyActive | ReadySuspended | Cancelled

  /** Where the producer is. Body is the coroutine's own code; Yield0 to Yield4 are
      internal_yield_value and await_ready, Wait0 to Wait5 await_suspend, with the value of
      currentState where it matters; Kill is about to destroy the frame. Fell is the end of the
      body without a final suspension. */
  datatype Producer =
    | Unstarted | Body | Yield0 | Yield1 | Yield2 | Yield3 | Yield4(cur: Flag)
    | Wait0(cur: Flag) | Wait1 | Wait2 | Wait3 | Wait4(cur: Flag) | Wait5(cur: Flag)
    | Asleep | Kill | Dead | Fell

  /** Where the consumer is. User is its own code; Ask0 to Ask4 are the constructor of the advance
      operation and await_ready, Hold0 to Hold5 its await_suspend; Take is await_resume; Drop0 and
      Drop1 are the generator's destructor. */
  datatype Consumer =
    | User | Ask0 | Ask1 | Ask2 | Ask3 | Ask4(cur: Flag)
    | Hold0(cur: Flag) | Hold1 | Hold2 | Hold3 | Hold4(cur: Flag) | Hold5
    | Sleeping | Take | Drop0 | Drop1 | Gone

  /** vals are the values yielded so far and got those taken; fin says that the producer has come to
      its end and seen that the consumer knows; alive and kills follow the coroutine frame, which
      holds the promise; failed records a failed assertion, a step on a dead frame, the resumption
      of a coroutine that is not suspended, or the destruction of one that is not. */
  datatype Sys = Sys(flag: Flag, prod: Producer, cons: Consumer, alive: bool, kills: nat, vals: seq<Value>, fin: bool,
                     got: seq<Value>, seen: bool, failed: bool)

  function Start(): Sys
  {
    Sys(ReadySuspended, Unstarted, User, true, 0, [], false, [], false, false)
  }

  function Check(s: Sys, ok: bool): Sys
  {
    if ok then s else s.(failed := true)
  }

  function Suspended(p: Producer): bool
  {
    p == Unstarted || p == Asleep
  }

  /** The yield expression is done and the body goes on; at the final one there is nothing to go on
      with. */
  function Proceed(s: Sys): Sys
  {
    s.(prod := if s.fin then Fell else Body)
  }

  /** The producer resumes the consumer. */
  function WakeConsumer(s: Sys, p: Producer): Sys
  {
    Check(s, s.cons == Sleeping).(cons := Take, prod := p)
  }

  /** The consumer resumes the producer, which must not be at its final suspension. */
  function WakeProducer(s: Sys, c: Consumer): Sys
  {
    Check(s, Suspended(s.prod) && !s.fin).(prod := Body, cons := c)
  }

  /** Lines 605-633, 568-571 and 635-699: the producer's next step, outside its body. */
  function ProducerStep(s: Sys): Sys
  {
    var s1 := Check(s, s.alive);
    match s.prod
    case Yield0 =>
      if s.flag == NotReadySuspended then s1.(prod := Yield1)
      else Check(s1, s.flag != ReadyActive && s.flag != ReadySuspended).(prod := Yield4(s.flag))
    case Yield1 => s1.(flag := ReadyActive, prod := Yield2)
    case Yield2 => WakeConsumer(s1, Yield3)
    case Yield3 => s1.(prod := Yield4(s.flag))
    case Yield4(cur) => if cur == NotReadySuspended then Proceed(s1) else s1.(prod := Wait0(cur))
    case Wait0(cur) =>
      if cur != NotReadyActive then s1.(prod := Wait5(cur))
      else if s.flag == NotReadyActive then s1.(flag := ReadySuspended, prod := Asleep)
      else if s.flag == NotReadySuspended then s1.(prod := Wait1)
      else s1.(prod := Wait5(s.flag))
    case Wait1 => s1.(flag := ReadyActive, prod := Wait2)
    case Wait2 => WakeConsumer(s1, Wait3)
    case Wait3 => s1.(prod := Wait4(s.flag))
    case Wait4(cur) => if cur == NotReadySuspended then Proceed(s1) else s1.(prod := Wait5(cur))
    case Wait5(cur) =>
      if cur == ReadyActive && s.flag == ReadyActive then s1.(flag := ReadySuspended, prod := Asleep)
      else if cur == ReadyActive && s.flag == NotReadySuspended then Proceed(s1)
      else Check(s1, (if cur == ReadyActive then s.flag else cur) == Cancelled).(prod := Kill)
    case Kill => s1.(alive := false, kills := s.kills + 1, prod := Dead)
    case _ => s
  }

  predicate ProducerBusy(p: Producer)
  {
    !Suspended(p) && p != Body && p != Dead && p != Fell
  }

  /** Lines 722-744, 748-789, 885-897 and 504-519, 1000-1009: the consumer's next step, outside its own
      code. */
  function ConsumerStep(s: Sys): Sys
  {
    var s1 := Check(s, s.alive);
    match s.cons
    case Ask0 => s1.(cons := if s.flag == ReadySuspended then Ask1 else Ask4(s.flag))
    case Ask1 => s1.(flag := NotReadyActive, cons := Ask2)
    case Ask2 => WakeProducer(s1, Ask3)
    case Ask3 => s1.(cons := Ask4(s.flag))
    case Ask4(cur) => s1.(cons := if cur == ReadySuspended then Take else Hold0(cur))
    case Hold0(cur) =>
      if cur == ReadyActive then
        if s.flag == ReadyActive then s1.(flag := NotReadySuspended, cons := Sleeping)
        else Check(s1, s.flag == ReadySuspended).(cons := Hold1)
      else Check(s1, cur == NotReadyActive).(cons := Hold5)
    case Hold1 => s1.(flag := NotReadyActive, cons := Hold2)
    case Hold2 => WakeProducer(s1, Hold3)
    case Hold3 => s1.(cons := Hold4(s.flag))
    case Hold4(cur) =>
      if cur == ReadySuspended then s1.(cons := Take) else Check(s1, cur == NotReadyActive).(cons := Hold5)
    case Hold5 =>
      if s.flag == NotReadyActive then s1.(flag := NotReadySuspended, cons := Sleeping) else s1.(cons := Take)
    case Take =>
      if s.fin then s1.(seen := true, cons := User)
      else if s.vals == [] then s1.(failed := true, cons := User)
      else s1.(got := s.got + [s.vals[|s.vals| - 1]], cons := User)
    case Drop0 =>
      Check(s1, s.flag != NotReadySuspended && s.flag != Cancelled)
      .(flag := Cancelled, cons := if s.flag == ReadySuspended then Drop1 else Gone)
    case Drop1 => Check(s1, Suspended(s.prod)).(alive := false, kills := s.kills + 1, cons := Gone)
    case _ => s
  }

  predicate ConsumerBusy(c: Consumer)
  {
    c != User && c != Sleeping && c != Gone
  }

  /** What the coroutines' own code may do: yield, or end; ask for a value unless the end has been
      seen, drop the generator, or drop it between building an advance operation and awaiting it. */
  predicate Choice(s: Sys, s': Sys)
  {
    || (s.prod == Body && |s'.vals| == |s.vals| + 1 && s' == s.(vals := s.vals + [s'.vals[|s.vals|]], prod := Yield0))
    || (s.prod == Body && s' == s.(fin := true, prod := Yield0))
    || (s.cons == User && !s.seen && s' == s.(cons := Ask0))
    || (s.cons == User && s' == s.(cons := Drop0))
    || (s.cons.Ask4? && s' == s.(cons := Drop0))
  }

  predicate Next(s: Sys, s': Sys)
  {
    || (ProducerBusy(s.prod) && s' == ProducerStep(s))
    || (ConsumerBusy(s.cons) && s' == ConsumerStep(s))
    || Choice(s, s')
  }

  /** A value has been yielded, or the end reached, and not been taken. */
  predicate Unread(s: Sys)
  {
    !s.seen && if s.fin then s.got == s.vals else |s.vals| == |s.got| + 1 && s.vals[..|s.got|] == s.got
  }

  /** Everything yielded has been taken. */
  predicate Settled(s: Sys)
  {
    s.got == s.vals && (s.fin <==> s.seen)
  }

  /** The producer holds the frame: it has been cancelled and has not got to the test yet. */
  predicate Orphan(p: Producer)
  {
    match p
    case Yield4(cur) => cur == NotReadyActive || cur == ReadyActive || cur == Cancelled
    case Wait0(cur) => cur == NotReadyActive || cur == ReadyActive || cur == Cancelled
    case Wait4(cur) => cur == ReadyActive || cur == Cancelled
    case Wait5(cur) => cur == ReadyActive || cur == Cancelled
    case _ => p == Body || p == Yield0 || p == Yield3 || p == Wait3 || p == Kill
  }

  /** The producer sleeps with a value ready or taken; the consumer is awake. */
  predicate WhenReadySuspended(s: Sys)
  {
    && s.alive && Suspended(s.prod)
    && (match s.cons
        case User => Settled(s)
        case Ask0 => Settled(s) && !s.fin
        case Ask1 => Settled(s) && !s.fin
        case Ask3 => Unread(s) && s.prod == Asleep
        case Ask4(cur) =>
          if cur == ReadyActive then Settled(s) && !s.fin && s.prod == Asleep
          else (cur == NotReadyActive || cur == ReadySuspended) && Unread(s) && s.prod == Asleep
        case Hold0(cur) =>
          if cur == ReadyActive then Settled(s) && !s.fin && s.prod == Asleep
          else cur == NotReadyActive && Unread(s) && s.prod == Asleep
        case Hold1 => Settled(s) && !s.fin && s.prod == Asleep
        case Hold3 => Unread(s) && s.prod == Asleep
        case Hold4(cur) => (cur == NotReadyActive || cur == ReadySuspended) && Unread(s) && s.prod == Asleep
        case Hold5 => Unread(s) && s.prod == Asleep
        case Take => Unread(s) && s.prod == Asleep
        case Drop0 => Settled(s) || Unread(s)
        case _ => false)
  }

  /** The consumer is awake and has asked; the producer runs, or is about to be resumed. */
  predicate WhenNotReadyActive(s: Sys)
  {
    && s.alive
    && (match s.cons
        case Ask2 => Suspended(s.prod) && Settled(s) && !s.fin
        case Hold2 => Suspended(s.prod) && Settled(s) && !s.fin
        case _ =>
          && (s.cons == Ask3 || s.cons == Ask4(NotReadyActive) || s.cons == Hold0(NotReadyActive) || s.cons == Hold3
              || s.cons == Hold4(NotReadyActive) || s.cons == Hold5 || s.cons == Drop0)
          && (if s.prod == Body then Settled(s) && !s.fin
              else
                && (s.prod == Yield0 || s.prod == Yield4(NotReadyActive) || s.prod == Wait0(NotReadyActive))
                && Unread(s)))
  }

  /** The consumer sleeps and the producer runs. */
  predicate WhenNotReadySuspended(s: Sys)
  {
    && s.alive && s.cons == Sleeping
    && (match s.prod
        case Body => Settled(s) && !s.fin
        case Yield0 => Unread(s)
        case Yield1 => Unread(s)
        case Yield3 => Settled(s) && !s.fin
        case Yield4(cur) =>
          if cur == NotReadyActive then Unread(s)
          else (cur == ReadyActive || cur == NotReadySuspended) && Settled(s) && !s.fin
        case Wait0(cur) =>
          if cur == NotReadyActive then Unread(s) else cur == ReadyActive && Settled(s) && !s.fin
        case Wait1 => Unread(s)
        case Wait3 => Settled(s) && !s.fin
        case Wait4(cur) => (cur == ReadyActive || cur == NotReadySuspended) && Settled(s) && !s.fin
        case Wait5(cur) => cur == ReadyActive && Settled(s) && !s.fin
        case _ => false)
  }

  /** The producer has a value for the consumer and resumes it, or has done so. */
  predicate WhenReadyActive(s: Sys)
  {
    && s.alive
    && (if s.prod == Yield2 || s.prod == Wait2 then s.cons == Sleeping && Unread(s)
        else
          && (s.prod == Yield3 || s.prod == Yield4(ReadyActive) || s.prod == Wait0(ReadyActive) || s.prod == Wait3
              || s.prod == Wait4(ReadyActive) || s.prod == Wait5(ReadyActive))
          && (match s.cons
              case Take => Unread(s)
              case User => Settled(s)
              case Ask0 => Settled(s) && !s.fin
              case Ask4(cur) => cur == ReadyActive && Settled(s) && !s.fin
              case Hold0(cur) => cur == ReadyActive && Settled(s) && !s.fin
              case Drop0 => Settled(s)
              case _ => false))
  }

  /** The generator is gone; the frame belongs to whoever is to destroy it. */
  predicate WhenCancelled(s: Sys)
  {
    && s.got <= s.vals
    && (if s.cons == Drop1 then s.alive && Suspended(s.prod)
        else s.cons == Gone && if s.alive then Orphan(s.prod) else s.prod == Dead || Suspended(s.prod))
  }

  /** Who can be where under each value of m_state, and whether a value is waiting. */
  predicate Together(s: Sys)
  {
    match s.flag
    case ReadySuspended => WhenReadySuspended(s)
    case NotReadyActive => WhenNotReadyActive(s)
    case NotReadySuspended => WhenNotReadySuspended(s)
    case ReadyActive => WhenReadyActive(s)
    case Cancelled => WhenCancelled(s)
  }

  predicate Inv(s: Sys)
  {
    !s.failed && s.kills == (if s.alive then 0 else 1) && Together(s)
  }

  lemma InvStart()
    ensures Inv(Start())
  {
  }

  lemma ProducerNotReadyActive(s: Sys)
    requires Inv(s) && ProducerBusy(s.prod) && s.flag == NotReadyActive
    ensures Inv(ProducerStep(s))
  {
    hide WhenNotReadySuspended, WhenReadyActive, WhenCancelled;
  }

  lemma ProducerNotReadySuspended(s: Sys)
    requires Inv(s) && ProducerBusy(s.prod) && s.flag == NotReadySuspended
    ensures Inv(ProducerStep(s))
  {
    hide WhenReadySuspended, WhenNotReadyActive, WhenCancelled;
  }

  lemma ProducerReadyActive(s: Sys)
    requires Inv(s) && ProducerBusy(s.prod) && s.flag == ReadyActive
    ensures Inv(ProducerStep(s))
  {
    hide WhenNotReadyActive, WhenNotReadySuspended, WhenCancelled;
  }

  lemma ProducerCancelled(s: Sys)
    requires Inv(s) && ProducerBusy(s.prod) && s.flag == Cancelled
    ensures Inv(ProducerStep(s))
  {
    hide WhenReadySuspended, WhenNotReadyActive, WhenNotReadySuspended, WhenReadyActive;
  }

  lemma InvProducer(s: Sys)
    requires Inv(s) && ProducerBusy(s.prod)
    ensures Inv(ProducerStep(s))
  {
    hide ProducerStep, Together;
    match s.flag
    case NotReadyActive => ProducerNotReadyActive(s);
    case NotReadySuspended => ProducerNotReadySuspended(s);
    case ReadyActive => ProducerReadyActive(s);
    case Cancelled => ProducerCancelled(s);
    case ReadySuspended => NobodyAwake(s);
  }

  lemma NobodyAwake(s: Sys)
    requires Inv(s) && s.flag == ReadySuspended
    ensures !ProducerBusy(s.prod)
  {
  }

  lemma ConsumerNotReadyActive(s: Sys)
    requires Inv(s) && ConsumerBusy(s.cons) && s.flag == NotReadyActive
    ensures Inv(ConsumerStep(s))
  {
    hide WhenReadySuspended, WhenReadyActive;
  }

  lemma ConsumerReadyActive(s: Sys)
    requires Inv(s) && ConsumerBusy(s.cons) && s.flag == ReadyActive
    ensures Inv(ConsumerStep(s))
  {
    hide WhenReadySuspended, WhenNotReadyActive;
  }

  lemma ConsumerReadySuspended(s: Sys)
    requires Inv(s) && ConsumerBusy(s.cons) && s.flag == ReadySuspended
    ensures Inv(ConsumerStep(s))
  {
    hide WhenNotReadySuspended, WhenReadyActive;
  }

  lemma ConsumerCancelled(s: Sys)
    requires Inv(s) && ConsumerBusy(s.cons) && s.flag == Cancelled
    ensures Inv(ConsumerStep(s))
  {
    hide WhenReadySuspended, WhenNotReadyActive, WhenNotReadySuspended, WhenReadyActive;
  }

  lemma InvConsumer(s: Sys)
    requires Inv(s) && ConsumerBusy(s.cons)
    ensures Inv(ConsumerStep(s))
  {
    hide ConsumerStep, Together;
    match s.flag
    case NotReadyActive => ConsumerNotReadyActive(s);
    case ReadyActive => ConsumerReadyActive(s);
    case ReadySuspended => ConsumerReadySuspended(s);
    case Cancelled => ConsumerCancelled(s);
    case NotReadySuspended => ConsumerSleeps(s);
  }

  lemma ConsumerSleeps(s: Sys)
    requires Inv(s) && s.flag == NotReadySuspended
    ensures !ConsumerBusy(s.cons)
  {
  }

  lemma InvChoice(s: Sys, s': Sys)
    requires Inv(s) && Choice(s, s')
    ensures Inv(s')
  {
  }

  /** A run: any interleaving of the two. */
  ghost predicate Run(tr: seq<Sys>)
  {
    tr != [] && tr[0] == Start() && forall i :: 0 < i < |tr| ==> Next(tr[i - 1], tr[i])
  }

  lemma {:induction false} InvRun(tr: seq<Sys>, i: nat)
    requires Run(tr) && i < |tr|
    ensures Inv(tr[i])
  {
    hide Inv, ProducerStep, ConsumerStep, Choice;
    if i == 0 {
      InvStart();
    } else {
      InvRun(tr, i - 1);
      var s := tr[i - 1];
      assert Next(s, tr[i]);
      if ProducerBusy(s.prod) && tr[i] == ProducerStep(s) {
        InvProducer(s);
      } else if ConsumerBusy(s.cons) && tr[i] == ConsumerStep(s) {
        InvConsumer(s);
      } else {
        InvChoice(s, tr[i]);
      }
    }
  }

  /** In every interleaving: no assertion fails, no step touches a destroyed frame, nothing is
      resumed or destroyed that is not suspended, and the frame is destroyed at most once; what
      the consumer has taken is what the producer has yielded, in order and without gaps or
      repetitions, and at most one value is on its way while the generator lives. */
  lemma Safe(tr: seq<Sys>, i: nat)
    requires Run(tr) && i < |tr|
    ensures !tr[i].failed && tr[i].kills <= 1
    ensures tr[i].got <= tr[i].vals && (tr[i].flag != Cancelled ==> |tr[i].vals| <= |tr[i].got| + 1)
    ensures tr[i].seen && tr[i].flag != Cancelled ==> tr[i].fin && tr[i].got == tr[i].vals
  {
    hide Next, Inv;
    InvRun(tr, i);
    InvSafe(tr[i]);
  }

  lemma InvSafe(s: Sys)
    requires Inv(s)
    ensures !s.failed && s.kills <= 1
    ensures s.got <= s.vals && (s.flag != Cancelled ==> |s.vals| <= |s.got| + 1)
    ensures s.seen && s.flag != Cancelled ==> s.fin && s.got == s.vals
  {
  }

  /** The two are never both suspended with nobody due to resume either: a sleeping consumer has a
      producer on its way, and a sleeping producer a consumer, unless the generator is being
      dropped. */
  lemma NoLostWakeup(tr: seq<Sys>, i: nat)
    requires Run(tr) && i < |tr|
    ensures tr[i].cons == Sleeping ==> tr[i].alive && (ProducerBusy(tr[i].prod) || tr[i].prod == Body)
    ensures tr[i].prod == Asleep && tr[i].alive ==> ConsumerBusy(tr[i].cons) || tr[i].cons == User
    ensures tr[i].prod != Fell
  {
    hide Next, Inv;
    InvRun(tr, i);
    InvAwake(tr[i]);
  }

  lemma InvAwake(s: Sys)
    requires Inv(s)
    ensures s.cons == Sleeping ==> s.alive && (ProducerBusy(s.prod) || s.prod == Body)
    ensures s.prod == Asleep && s.alive ==> ConsumerBusy(s.cons) || s.cons == User
    ensures s.prod != Fell
  {
  }

  /** While the consumer holds a value, until it asks for the next, the producer does not run its
      body, so that the value stays as it is. */
  lemma ValueStays(tr: seq<Sys>, i: nat)
    requires Run(tr) && i < |tr|
    ensures tr[i].cons == Take || tr[i].cons == User ==> tr[i].prod != Body && tr[i].alive
  {
    hide Next, Inv;
    InvRun(tr, i);
    InvStays(tr[i]);
  }

  lemma InvStays(s: Sys)
    requires Inv(s)
    ensures s.cons == Take || s.cons == User ==> s.prod != Body && s.alive
  {
  }

  /** When the generator has been dropped and everything has come to rest, the frame has been
      destroyed exactly once: nothing leaks. */
  lemma NoLeak(tr: seq<Sys>, i: nat)
    requires Run(tr) && i < |tr| && tr[i].cons == Gone && !ProducerBusy(tr[i].prod) && tr[i].prod != Body
    ensures !tr[i].alive && tr[i].kills == 1
  {
    hide Next, Inv;
    InvRun(tr, i);
    InvLeak(tr[i]);
  }

  lemma InvLeak(s: Sys)
    requires Inv(s) && s.cons == Gone && !ProducerBusy(s.prod) && s.prod != Body
    ensures !s.alive && s.kills == 1
  {
  }

  /** How many steps the producer is from its body, from sleep or from its end. */
  function ProducerRank(p: Producer): nat
  {
    match p
    case Yield0 => 12
    case Yield1 => 11
    case Yield2 => 10
    case Yield3 => 9
    case Yield4(_) => 8
    case Wait0(_) => 7
    case Wait1 => 6
    case Wait2 => 5
    case Wait3 => 4
    case Wait4(_) => 3
    case Wait5(_) => 2
    case Kill => 1
    case _ => 0
  }

  function ConsumerRank(c: Consumer): nat
  {
    match c
    case Ask0 => 12
    case Ask1 => 11
    case Ask2 => 10
    case Ask3 => 9
    case Ask4(_) => 8
    case Hold0(_) => 7
    case Hold1 => 6
    case Hold2 => 5
    case Hold3 => 4
    case Hold4(_) => 3
    case Hold5 => 2
    case Drop0 => 2
    case Take => 1
    case Drop1 => 1
    case _ => 0
  }

  /** What is left to do before one of the two is in its own code and the other there too or suspended. A
      producer that resumes the consumer leaves it one step. */
  function Work(s: Sys): nat
  {
    2 * ProducerRank(s.prod) + ConsumerRank(s.cons)
  }

  lemma WorkShrinks(s: Sys)
    requires Inv(s)
    ensures ProducerBusy(s.prod) ==> Work(ProducerStep(s)) < Work(s)
    ensures ConsumerBusy(s.cons) ==> Work(ConsumerStep(s)) < Work(s)
  {
    hide *;
    SleepsWhenWoken(s);
    ProducerShrinks(s);
    ConsumerShrinks(s);
  }

  lemma ProducerShrinks(s: Sys)
    requires s.prod == Yield2 || s.prod == Wait2 ==> s.cons == Sleeping
    ensures ProducerBusy(s.prod) ==> Work(ProducerStep(s)) < Work(s)
  {
    hide ProducerStep, Work, ProducerBusy, ProducerRank;
    if ProducerRank(s.prod) >= 8 {
      YieldShrinks(s);
    } else {
      WaitShrinks(s);
    }
  }

  lemma YieldShrinks(s: Sys)
    requires ProducerRank(s.prod) >= 8 && (s.prod == Yield2 ==> s.cons == Sleeping)
    ensures Work(ProducerStep(s)) < Work(s)
  {
  }

  lemma WaitShrinks(s: Sys)
    requires ProducerRank(s.prod) < 8 && (s.prod == Wait2 ==> s.cons == Sleeping)
    ensures ProducerBusy(s.prod) ==> Work(ProducerStep(s)) < Work(s)
  {
  }

  lemma ConsumerShrinks(s: Sys)
    requires s.cons == Ask2 || s.cons == Hold2 ==> Suspended(s.prod)
    ensures ConsumerBusy(s.cons) ==> Work(ConsumerStep(s)) < Work(s)
  {
    hide ConsumerStep, Work, ConsumerBusy, ConsumerRank;
    if ConsumerRank(s.cons) >= 6 {
      AskShrinks(s);
    } else {
      HoldShrinks(s);
    }
  }

  lemma AskShrinks(s: Sys)
    requires ConsumerRank(s.cons) >= 6 && (s.cons == Ask2 ==> Suspended(s.prod))
    ensures Work(ConsumerStep(s)) < Work(s)
  {
  }

  lemma HoldShrinks(s: Sys)
    requires ConsumerRank(s.cons) < 6 && (s.cons == Hold2 ==> Suspended(s.prod))
    ensures ConsumerBusy(s.cons) ==> Work(ConsumerStep(s)) < Work(s)
  {
  }

  lemma SleepsWhenWoken(s: Sys)
    requires Inv(s)
    ensures s.prod == Yield2 || s.prod == Wait2 ==> s.cons == Sleeping
    ensures s.cons == Ask2 || s.cons == Hold2 ==> Suspended(s.prod)
  {
  }

  /** The steps from i to j are all steps of the protocol, none of the coroutines' own code. */
  ghost predicate Quiet(tr: seq<Sys>, i: nat, j: nat)
  {
    i <= j < |tr| && forall k :: i < k <= j ==> !Choice(tr[k - 1], tr[k])
  }

  /** The protocol cannot go on for ever by itself: after at most 36 steps it is the turn of one of
      the coroutines' own code. */
  lemma {:induction false} Settles(tr: seq<Sys>, i: nat, j: nat)
    requires Run(tr) && Quiet(tr, i, j)
    ensures Work(tr[j]) + (j - i) <= Work(tr[i]) <= 36
    decreases j
  {
    hide Inv, ProducerStep, ConsumerStep, Choice, Work;
    WorkBound(tr[i]);
    if i < j {
      Settles(tr, i, j - 1);
      assert Next(tr[j - 1], tr[j]) && !Choice(tr[j - 1], tr[j]);
      InvRun(tr, j - 1);
      WorkShrinks(tr[j - 1]);
    }
  }

  lemma WorkBound(s: Sys)
    ensures Work(s) <= 36
  {
  }

  /** The consumer sleeps and there is something for it. */
  predicate Awaited(s: Sys)
  {
    s.cons == Sleeping && Unread(s)
  }

  lemma AwaitedStep(s: Sys, s': Sys)
    requires Inv(s) && Awaited(s) && Next(s, s')
    ensures ProducerBusy(s.prod) && s' == ProducerStep(s)
    ensures s'.cons != Sleeping || (Awaited(s') && ProducerRank(s'.prod) < ProducerRank(s.prod))
    ensures s'.cons != Sleeping ==> s'.cons == Take
  {
  }

  /** A sleeping consumer for which a value has been yielded, or the end reached, is resumed within 13
      steps, whatever the interleaving. */
  lemma {:induction false} Resumed(tr: seq<Sys>, i: nat, j: nat)
    requires Run(tr) && i <= j < |tr| && Awaited(tr[i]) && forall k :: i <= k < j ==> tr[k].cons == Sleeping
    ensures if tr[j].cons == Sleeping then Awaited(tr[j]) && ProducerRank(tr[j].prod) + (j - i) <= 12
      else tr[j].cons == Take && j - i <= 13
    decreases j
  {
    hide Inv, ProducerStep, ConsumerStep, Choice, Awaited, ProducerRank, Next;
    if i < j {
      Resumed(tr, i, j - 1);
      assert Next(tr[j - 1], tr[j]);
      InvRun(tr, j - 1);
      AwaitedStep(tr[j - 1], tr[j]);
    } else {
      AwaitedNow(tr[i]);
    }
  }

  lemma AwaitedNow(s: Sys)
    requires Awaited(s)
    ensures s.cons == Sleeping && ProducerRank(s.prod) <= 12
  {
  }
}
