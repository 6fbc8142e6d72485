/**
  The select backend (libev-master/ev_select.c, the variant with its own bit vectors).  A word
  of 64 bits is the set of the positions of its one-bits, so `|= mask` adds a position and
  `&= ~mask` removes it.
 */
module SelectBackend {
  import opened Wrappers
  import opened EventLoop
  import opened PendingQueues
  import opened FdInterest
  import opened Readiness

  const NFDBITS := 64

  type Word = set<nat>

  class Select {
    var vecRi: array<Word>
    var vecWi: array<Word>

    ghost predicate Valid()
      reads this, vecRi, vecWi
    {
      vecRi != vecWi && vecRi.Length == vecWi.Length
    }

    /** The events that select is asked for on fd. */
    ghost function Interest(fd: nat): Mask
      requires Valid()
      reads this, vecRi, vecWi
    {
      var (word, bit) := (fd / NFDBITS, fd % NFDBITS);
      if word >= vecRi.Length then {}
      else (if bit in vecRi[word] then {Read} else {}) + (if bit in vecWi[word] then {Write} else {})
    }

    constructor ()
      ensures Valid() && forall fd :: Interest(fd) == {}
      ensures fresh(vecRi) && fresh(vecWi)
    {
      vecRi, vecWi := new Word[0], new Word[0];
    }

    // The vectors reallocated, with zero for the new words.
    static method Grow(vec: array<Word>, max: nat) returns (vec': array<Word>)
      requires max >= vec.Length
      ensures fresh(vec') && vec'.Length == max
      ensures forall i :: 0 <= i < max ==> vec'[i] == if i < vec.Length then vec[i] else {}
    {
      vec' := new Word[max](i reads vec => if 0 <= i < vec.Length then vec[i] else {});
    }

    /** select_modify */
    method SelectModify(fd: nat, oev: Mask, nev: Mask)
      requires Valid() && oev == Interest(fd) && nev <= IO
      modifies `vecRi, `vecWi, vecRi, vecWi
      ensures Valid() && Interest(fd) == nev
      ensures forall u :: u != fd ==> Interest(u) == old(Interest(u))
      ensures (vecRi == old(vecRi) || fresh(vecRi)) && (vecWi == old(vecWi) || fresh(vecWi))
    {
      if oev == nev {
        return;
      }
      var word, bit := fd / NFDBITS, fd % NFDBITS;
      if vecRi.Length <= word {
        vecRi := Grow(vecRi, word + 1);
        vecWi := Grow(vecWi, word + 1);
      }
      SameFd(fd);
      vecRi[word] := vecRi[word] + {bit};
      if Read !in nev {
        vecRi[word] := vecRi[word] - {bit};
      }
      vecWi[word] := vecWi[word] + {bit};
      if Write !in nev {
        vecWi[word] := vecWi[word] - {bit};
      }
    }
  }

  // Two fds with the same word and bit are the same.
  lemma SameFd(fd: nat)
    ensures forall u: nat :: u / NFDBITS == fd / NFDBITS && u % NFDBITS == fd % NFDBITS ==> u == fd
  {}

  /** select is asked for exactly the events that the table of fds says it was told of. */
  ghost predicate Agrees(fds: Fds, sel: Select)
    reads fds`anfds, sel, sel.vecRi, sel.vecWi
  {
    && sel.Valid()
    && forall fd: nat :: sel.Interest(fd) == Events(fds.anfds, fd)
  }

  function Events(anfds: seq<Anfd>, fd: nat): Mask {
    if fd < |anfds| then anfds[fd].events else {}
  }

  /** fd_reify, with select_modify for backend_modify: afterwards select is asked, for every fd,
      for the OR of what the fd's watchers ask for. */
  method FdReify(fds: Fds, sel: Select)
    requires fds.Valid() && fds.reified == 0 && Agrees(fds, sel)
    modifies fds`anfds, fds`fdchanges, fds`reified
    modifies sel`vecRi, sel`vecWi, sel.vecRi, sel.vecWi
    ensures fds.Valid() && fds.reified == 0 && fds.fdchanges == [] && Agrees(fds, sel)
    ensures |fds.anfds| == |old(fds.anfds)|
    ensures forall fd :: 0 <= fd < |fds.anfds| ==>
              && fds.anfds[fd].head == old(fds.anfds)[fd].head && fds.anfds[fd].reify == {}
              && sel.Interest(fd) == Wanted(fds.anfds[fd].head)
    ensures (sel.vecRi == old(sel.vecRi) || fresh(sel.vecRi)) && (sel.vecWi == old(sel.vecWi) || fresh(sel.vecWi))
  {
    hide Fds.Valid, Agrees, Wanted, Select.Interest;
    var i := 0;
    while i < |fds.fdchanges|
      invariant fds.Valid() && fds.reified == i <= |fds.fdchanges| && Agrees(fds, sel)
      invariant |fds.anfds| == |old(fds.anfds)|
      invariant forall fd :: 0 <= fd < |fds.anfds| ==> fds.anfds[fd].head == old(fds.anfds)[fd].head
      invariant (sel.vecRi == old(sel.vecRi) || fresh(sel.vecRi)) && (sel.vecWi == old(sel.vecWi) || fresh(sel.vecWi))
    {
      ReifyOne(fds, sel, i);
      i := i + 1;
    }
    fds.EndReify(i);
    TellAgrees(fds, sel);
  }

  // The body of the loop of fd_reify.
  method ReifyOne(fds: Fds, sel: Select, i: nat)
    requires fds.Valid() && fds.reified == i < |fds.fdchanges| && Agrees(fds, sel)
    modifies fds`anfds, fds`reified
    modifies sel`vecRi, sel`vecWi, sel.vecRi, sel.vecWi
    ensures fds.Valid() && fds.reified == i + 1 && Agrees(fds, sel)
    ensures |fds.anfds| == |old(fds.anfds)|
    ensures forall fd :: 0 <= fd < |fds.anfds| ==> fds.anfds[fd].head == old(fds.anfds)[fd].head
    ensures (sel.vecRi == old(sel.vecRi) || fresh(sel.vecRi)) && (sel.vecWi == old(sel.vecWi) || fresh(sel.vecWi))
  {
    hide Fds.TableOk, Queues.Valid, Select.Valid, Select.Interest, Wanted;
    fds.NextInRange(i);
    assert sel.Interest(fds.fdchanges[i]) == fds.anfds[fds.fdchanges[i]].events;
    var fd, tell, oev, nev := fds.ReifyNext(i);
    if tell {
      sel.SelectModify(fd, oev, nev);
    }
  }

  lemma TellAgrees(fds: Fds, sel: Select)
    requires Agrees(fds, sel)
    ensures sel.Valid() && forall fd :: 0 <= fd < |fds.anfds| ==> sel.Interest(fd) == fds.anfds[fd].events
  {}

  // ---------- select_poll ----------

  // What select(2) leaves of word number `word`.
  function Readable(w: Word, word: nat, ready: nat -> Ready): Word {
    set b | b in w && (ready(word * NFDBITS + b).inp || ready(word * NFDBITS + b).err)
  }

  function Writable(w: Word, word: nat, ready: nat -> Ready): Word {
    set b | b in w && (ready(word * NFDBITS + b).outp || ready(word * NFDBITS + b).err)
  }

  // The polled fds from `fd` on.
  ghost function From(anfds: seq<Anfd>, fd: nat): set<nat> {
    set u | u in Polled(anfds) && u >= fd
  }

  lemma FromNext(anfds: seq<Anfd>, fd: nat)
    ensures From(anfds, fd) == if Events(anfds, fd) != {} then From(anfds, fd + 1) + {fd} else From(anfds, fd + 1)
    ensures Events(anfds, fd) != {} ==> fd < |anfds| && fd !in From(anfds, fd + 1)
  {}

  lemma FdAt(word: nat, bit: nat)
    requires bit < NFDBITS
    ensures (word * NFDBITS + bit) / NFDBITS == word && (word * NFDBITS + bit) % NFDBITS == bit
  {}

  lemma InVectors(fd: nat, length: nat)
    ensures fd / NFDBITS < length <==> fd < length * NFDBITS
  {}

  // The report about one fd of the scan, which runs downwards.
  method TellFd(fds: Fds, fd: nat, ready: nat -> Ready, events: Mask, ghost anfds: seq<Anfd>, ghost trace: seq<Happening>)
    requires fds.Valid() && Told(fds, ready, From(anfds, fd + 1), anfds, trace)
    requires events == Events(anfds, fd) * Report(ready(fd))
    requires Events(anfds, fd) != {} ==> !ready(fd).closed
    modifies fds`anfds, fds`fdchanges, fds`activecnt, fds.all`active
    modifies fds.queues`pendings, fds.queues`pendingpri, fds.queues`trace, fds.all`pending
    ensures fds.Valid() && Told(fds, ready, From(anfds, fd), anfds, trace)
  {
    hide Fds.Valid, Told, Report, From;
    FromNext(anfds, fd);
    if events != {} {
      assert Events(anfds, fd) * events == Events(anfds, fd) * Report(ready(fd));
      TellMore(fds, fd, ready, events, From(anfds, fd + 1), anfds, trace);
    } else if Events(anfds, fd) != {} {
      NothingMore(fds, fd, ready, From(anfds, fd + 1), anfds, trace);
    }
  }

  // The bit vectors, of equal length, say what the table says.
  ghost predicate Vectors(ri: seq<Word>, wi: seq<Word>, anfds: seq<Anfd>) {
    && |ri| == |wi|
    && (forall word, bit :: 0 <= word < |ri| && 0 <= bit < NFDBITS ==>
          Events(anfds, word * NFDBITS + bit) ==
            (if bit in ri[word] then {Read} else {}) + (if bit in wi[word] then {Write} else {}))
    && (forall fd :: fd in Polled(anfds) ==> fd < |ri| * NFDBITS)
  }

  lemma InterestIsVectors(fds: Fds, sel: Select)
    requires Agrees(fds, sel)
    ensures Vectors(sel.vecRi[..], sel.vecWi[..], fds.anfds)
  {
    hide Select.Interest, Events;
    forall word, bit | 0 <= word < sel.vecRi.Length && 0 <= bit < NFDBITS
      ensures Events(fds.anfds, word * NFDBITS + bit) ==
              (if bit in sel.vecRi[word] then {Read} else {}) + (if bit in sel.vecWi[word] then {Write} else {})
    {
      InterestAt(sel, word, bit);
    }
    forall fd | fd in Polled(fds.anfds) ensures fd < sel.vecRi.Length * NFDBITS {
      PolledInRange(fds, sel, fd);
    }
  }

  lemma InterestAt(sel: Select, word: nat, bit: nat)
    requires sel.Valid() && word < sel.vecRi.Length && bit < NFDBITS
    ensures sel.Interest(word * NFDBITS + bit) ==
            (if bit in sel.vecRi[word] then {Read} else {}) + (if bit in sel.vecWi[word] then {Write} else {})
  {
    FdAt(word, bit);
  }

  lemma PolledInRange(fds: Fds, sel: Select, fd: nat)
    requires Agrees(fds, sel) && fd in Polled(fds.anfds)
    ensures fd < sel.vecRi.Length * NFDBITS
  {
    assert sel.Interest(fd) == Events(fds.anfds, fd) != {};
    InVectors(fd, sel.vecRi.Length);
  }

  // What the scan finds at one bit is what the fd is ready for of what it is asked for.
  lemma FoundBits(ri: seq<Word>, wi: seq<Word>, anfds: seq<Anfd>, word: nat, bit: nat, ready: nat -> Ready)
    requires Vectors(ri, wi, anfds) && word < |ri| && bit < NFDBITS
    ensures Events(anfds, word * NFDBITS + bit) * Report(ready(word * NFDBITS + bit)) ==
            (if bit in Readable(ri[word], word, ready) then {Read} else {})
            + (if bit in Writable(wi[word], word, ready) then {Write} else {})
  {
    var (fd, r) := (word * NFDBITS + bit, ready(word * NFDBITS + bit));
    assert bit in Readable(ri[word], word, ready) <==> Read in Events(anfds, fd) && (r.inp || r.err);
    assert bit in Writable(wi[word], word, ready) <==> Write in Events(anfds, fd) && (r.outp || r.err);
    assert Events(anfds, fd) <= IO;
  }

  // None of the fds that select is asked about is closed.
  predicate AllOpen(anfds: seq<Anfd>, ready: nat -> Ready) {
    forall fd :: 0 <= fd < |anfds| && anfds[fd].events != {} ==> !ready(fd).closed
  }

  // A word without one-bits has nothing to report about any of its fds.
  lemma {:induction false} EmptyWord(fds: Fds, ri: seq<Word>, wi: seq<Word>, word: nat, bit: nat, ready: nat -> Ready,
                                     anfds: seq<Anfd>, trace: seq<Happening>)
    requires fds.Valid() && Vectors(ri, wi, anfds) && AllOpen(anfds, ready) && word < |ri| && bit <= NFDBITS
    requires Readable(ri[word], word, ready) == {} && Writable(wi[word], word, ready) == {}
    requires Told(fds, ready, From(anfds, word * NFDBITS + bit), anfds, trace)
    ensures Told(fds, ready, From(anfds, word * NFDBITS), anfds, trace)
    decreases bit
  {
    if bit > 0 {
      hide Fds.Valid, Told, Report, Readable, Writable, Vectors, From;
      var fd := word * NFDBITS + bit - 1;
      FoundBits(ri, wi, anfds, word, bit - 1, ready);
      FromNext(anfds, fd);
      if Events(anfds, fd) != {} {
        NothingMore(fds, fd, ready, From(anfds, fd + 1), anfds, trace);
      }
      EmptyWord(fds, ri, wi, word, bit - 1, ready, anfds, trace);
    }
  }

  // The loop of select_poll over the bits of a word.
  method ScanWord(fds: Fds, word: nat, wordR: Word, wordW: Word, ready: nat -> Ready,
                  ghost ri: seq<Word>, ghost wi: seq<Word>, ghost anfds: seq<Anfd>, ghost trace: seq<Happening>)
    requires fds.Valid() && Vectors(ri, wi, anfds) && AllOpen(anfds, ready) && word < |ri|
    requires wordR == Readable(ri[word], word, ready) && wordW == Writable(wi[word], word, ready)
    requires Told(fds, ready, From(anfds, (word + 1) * NFDBITS), anfds, trace)
    modifies fds`anfds, fds`fdchanges, fds`activecnt, fds.all`active
    modifies fds.queues`pendings, fds.queues`pendingpri, fds.queues`trace, fds.all`pending
    ensures fds.Valid() && Told(fds, ready, From(anfds, word * NFDBITS), anfds, trace)
  {
    hide Fds.Valid, Told, Report, Readable, Writable, Vectors, From;
    var bit := NFDBITS;
    while bit > 0
      invariant 0 <= bit <= NFDBITS && fds.Valid() && Told(fds, ready, From(anfds, word * NFDBITS + bit), anfds, trace)
    {
      bit := bit - 1;
      var events := {};
      events := events + if bit in wordR then {Read} else {};
      events := events + if bit in wordW then {Write} else {};
      FoundBits(ri, wi, anfds, word, bit, ready);
      TellFd(fds, word * NFDBITS + bit, ready, events, anfds, trace);
    }
  }

  /** select_poll.  select(2) fails with EBADF, which is the `ebadf` here, if and only if an fd
      that it is asked about is closed.  If it does not, exactly the readiness of the fds with
      events is reported; if it does, the closed fds are killed and nothing is reported. */
  method SelectPoll(fds: Fds, sel: Select, ready: nat -> Ready, ebadf: bool)
    requires fds.Valid() && Agrees(fds, sel) && (ebadf <==> !AllOpen(fds.anfds, ready))
    modifies fds`anfds, fds`fdchanges, fds`activecnt, fds.all`active
    modifies fds.queues`pendings, fds.queues`pendingpri, fds.queues`trace, fds.all`pending
    ensures fds.Valid()
    ensures !ebadf ==> Told(fds, ready, Polled(old(fds.anfds)), old(fds.anfds), old(fds.queues.trace))
    ensures ebadf ==>
              Told(fds, ready, ClosedBelow(old(fds.anfds), ready, |old(fds.anfds)|), old(fds.anfds), old(fds.queues.trace))
  {
    hide Fds.Valid, Told, Vectors, AllOpen;
    if ebadf {
      FdEbadf(fds, ready);
      return;
    }
    InterestIsVectors(fds, sel);
    Scan(fds, sel, ready);
  }

  // The loop of select_poll over the words.
  method Scan(fds: Fds, sel: Select, ready: nat -> Ready)
    requires fds.Valid() && sel.Valid() && Vectors(sel.vecRi[..], sel.vecWi[..], fds.anfds) && AllOpen(fds.anfds, ready)
    modifies fds`anfds, fds`fdchanges, fds`activecnt, fds.all`active
    modifies fds.queues`pendings, fds.queues`pendingpri, fds.queues`trace, fds.all`pending
    ensures fds.Valid() && Told(fds, ready, Polled(old(fds.anfds)), old(fds.anfds), old(fds.queues.trace))
  {
    hide Fds.Valid, Told, Readable, Writable, Vectors, AllOpen, From;
    NothingTold(fds, ready);
    ghost var (anfds, trace) := (fds.anfds, fds.queues.trace);
    ghost var (ri, wi) := (sel.vecRi[..], sel.vecWi[..]);
    AllFrom(ri, wi, anfds);
    var word := sel.vecRi.Length;
    while word > 0
      invariant 0 <= word <= |ri| && fds.Valid() && Told(fds, ready, From(anfds, word * NFDBITS), anfds, trace)
    {
      word := word - 1;
      var wordR := Readable(sel.vecRi[word], word, ready);
      var wordW := Writable(sel.vecWi[word], word, ready);
      if wordR != {} || wordW != {} {
        ScanWord(fds, word, wordR, wordW, ready, ri, wi, anfds, trace);
      } else {
        EmptyWord(fds, ri, wi, word, NFDBITS, ready, anfds, trace);
      }
    }
  }

  lemma AllFrom(ri: seq<Word>, wi: seq<Word>, anfds: seq<Anfd>)
    requires Vectors(ri, wi, anfds)
    ensures From(anfds, |ri| * NFDBITS) == {} && From(anfds, 0) == Polled(anfds)
  {}

  // ---------- Runs ----------

  ghost predicate RunOk(fds: Fds, sel: Select)
    reads fds, fds.queues, fds.queues.watchers`pending, fds.queues.watchers`priority
    reads fds.all`active, fds.all`fd, fds.all`events, fds.all`priority
    reads sel, sel.vecRi, sel.vecWi
  {
    fds.Valid() && fds.MasksOk() && fds.reified == 0 && Agrees(fds, sel)
  }

  ghost predicate StepsOk(fds: Fds, steps: seq<LoopStep>) {
    forall i :: 0 <= i < |steps| && steps[i].Io? ==> fds.StepOk(steps[i].step)
  }

  /** Over any run, what select is asked for agrees with the table of fds, and a final fd_reify
      makes both what the watchers on the lists ask for. */
  method Run(fds: Fds, sel: Select, steps: seq<LoopStep>)
    requires RunOk(fds, sel) && StepsOk(fds, steps)
    modifies fds`anfds, fds`fdchanges, fds`activecnt, fds`reified
    modifies fds.all`active, fds.all`fd, fds.all`events, fds.all`priority, fds.all`pending
    modifies fds.queues`pendings, fds.queues`pendingpri, fds.queues`trace
    modifies sel`vecRi, sel`vecWi, sel.vecRi, sel.vecWi
    ensures RunOk(fds, sel) && fds.fdchanges == []
    ensures forall fd :: 0 <= fd < |fds.anfds| ==> sel.Interest(fd) == Wanted(fds.anfds[fd].head)
    ensures forall w :: w in fds.all && w.active != 0 ==> w.fd < |fds.anfds| && w in fds.anfds[w.fd].head
  {
    hide Wanted, Select.Interest;
    for i := 0 to |steps|
      invariant RunOk(fds, sel)
      invariant (sel.vecRi == old(sel.vecRi) || fresh(sel.vecRi)) && (sel.vecWi == old(sel.vecWi) || fresh(sel.vecWi))
    {
      hide RunOk;
      RunStep(fds, sel, steps[i]);
    }
    FdReify(fds, sel);
    fds.TellLists();
  }

  lemma StillAgrees(fds: Fds, sel: Select, anfds: seq<Anfd>)
    requires sel.Valid() && forall fd: nat :: sel.Interest(fd) == if fd < |anfds| then anfds[fd].events else {}
    requires |anfds| <= |fds.anfds| && forall fd :: 0 <= fd < |anfds| ==> fds.anfds[fd].events == anfds[fd].events
    requires forall fd :: |anfds| <= fd < |fds.anfds| ==> fds.anfds[fd].events == {}
    ensures Agrees(fds, sel)
  {}

  method RunStep(fds: Fds, sel: Select, step: LoopStep)
    requires RunOk(fds, sel) && StepsOk(fds, [step])
    modifies fds`anfds, fds`fdchanges, fds`activecnt, fds`reified
    modifies fds.all`active, fds.all`fd, fds.all`events, fds.all`priority, fds.all`pending
    modifies fds.queues`pendings, fds.queues`pendingpri, fds.queues`trace
    modifies sel`vecRi, sel`vecWi, sel.vecRi, sel.vecWi
    ensures RunOk(fds, sel)
    ensures (sel.vecRi == old(sel.vecRi) || fresh(sel.vecRi)) && (sel.vecWi == old(sel.vecWi) || fresh(sel.vecWi))
  {
    hide Fds.TableOk, Fds.ChangesOk, Queues.Valid, Wanted, Select.Interest, Select.Valid;
    assert [step][0] == step;
    ghost var anfds := fds.anfds;
    match step
    case Io(io) =>
      fds.Apply(io, {});
      StillAgrees(fds, sel, anfds);
    case Reify => FdReify(fds, sel);
    case Poll(ready) =>
      SelectPoll(fds, sel, ready, !AllOpen(fds.anfds, ready));
      StillAgrees(fds, sel, anfds);
  }
}
