/** Wait and exit agree in registers: the word a child ends with is the word its parent reads. */
module Endings {
  import opened Words
  import opened KernelState
  import opened Actions
  import opened Sessions
  import opened History
  import opened Durable
  import opened Ledger

  /** The word each ended task ended with, written down from the registers alone: x0 at its exit call,
      or all ones if a fault killed it. */
  type EndWords = map<Tid, u64>

  ghost function Word(k: Kernel, e: Event, w: EndWords): EndWords {
    if e.cause.Fault? then w[k.current := 0xFFFF_FFFF_FFFF_FFFF]
    else if e.cause.Svc? && (e.cpu.x[8] == 2 || e.cpu.x[8] == 9) then w[k.current := e.cpu.x[0]]
    else w
  }

  ghost function WordsOf(k: Kernel, es: seq<Event>, w: EndWords): EndWords
    decreases |es|
  {
    if es == [] then w else
    match Step(k, es[0])
    case Resume(k1) => WordsOf(k1, es[1..], Word(k, es[0], w))
    case Monitor(_) => Word(k, es[0], w)
  }

  /** The codes in the history are the words, as signed numbers. */
  ghost predicate SameEndings(w: EndWords, h: History) {
    w.Keys == h.ended.Keys && forall t: Tid :: t in w ==> AsU64(h.ended[t]) == w[t]
  }

  lemma StepKeepsWords(k: Kernel, e: Event, w: EndWords, h: History)
    requires SameEndings(w, h)
    ensures SameEndings(Word(k, e, w), Record(Trap(k, e), e.cause, h))
  {
    hide ValidUserRange, UserWrites, AsU64, AsI64;
    SignRoundTrip(e.cpu.x[0]);
    assert AsU64(-1) == 0xFFFF_FFFF_FFFF_FFFF by { SignRoundTrip(0xFFFF_FFFF_FFFF_FFFF); }
  }

  lemma {:induction false} RunKeepsWords(k: Kernel, es: seq<Event>, w: EndWords, h: History)
    requires SameEndings(w, h)
    ensures SameEndings(WordsOf(k, es, w), Replay(k, es, h))
    decreases |es|
  {
    hide Step, SameEndings, Word, Record;
    if es != [] {
      StepKeepsWords(k, es[0], w, h);
      if Step(k, es[0]).Resume? {
        RunKeepsWords(Step(k, es[0]).k, es[1..], Word(k, es[0], w), Record(Trap(k, es[0]), es[0].cause, h));
      }
    }
  }

  /** At every point of every session: a wait for a spawned task returns at once, with the word that task
      ended with in x0, if it has ended; otherwise it does not answer with a word at all but blocks. */
  lemma {:induction false} WaitReturnsEndWord(boot: Kernel, args: seq<SpawnArgs>, leftover: Regs, es: seq<Event>, e: Event)
    requires Booted(boot) && args != [] && Session(boot, args, leftover, es).Resume?
    requires e.cause.Svc? && e.cpu.x[8] == 10 && 1 <= e.cpu.x[0] <= Min(|args|, 7)
    ensures
      var k := Session(boot, args, leftover, es).k;
      var words := WordsOf(Start(boot, args, leftover).k, es, map[]);
      var c := e.cpu.x[0];
      if c in words then
        var r := Step(k, e);
        r.Resume? && r.k.current == k.current && r.k.frame.x == e.cpu.x[0 := words[c]]
      else WaitBlocks(k, e)
  {
    hide Step, Start, WaitBlocks;
    RunKeepsWords(Start(boot, args, leftover).k, es, map[], NOTHING);
    WaitAgreesWithExit(boot, args, leftover, es, e);
  }
}
