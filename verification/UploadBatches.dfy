/** The character upload of the SillyTavern migration: files are packed greedily into requests, and every
    file is counted once however its request ends. */
module UploadBatches {
  datatype File = File(name: string, size: nat)

  const MAX_BYTES: nat := 30 * 1024 * 1024
  const MAX_FILES: nat := 50

  function Bytes(files: seq<File>): nat {
    if files == [] then 0 else Bytes(files[..|files| - 1]) + files[|files| - 1].size
  }

  function Concat<T>(batches: seq<seq<T>>): seq<T> {
    if batches == [] then [] else batches[0] + Concat(batches[1..])
  }

  /** What one request may hold; a file over the limit still goes alone. */
  predicate Fits(batch: seq<File>) {
    |batch| == 1 || (|batch| <= MAX_FILES && Bytes(batch) <= MAX_BYTES)
  }

  /** A split of the files into consecutive requests. */
  ghost predicate Split(batches: seq<seq<File>>, files: seq<File>) {
    Concat(batches) == files && forall b :: b in batches ==> b != [] && Fits(b)
  }

  // ---------------------------------------------------------------------------------------------
  // Packing
  // ---------------------------------------------------------------------------------------------

  /** The batches made from here on: `current` is open, `rest` has yet to be packed. */
  function Pack(current: seq<File>, rest: seq<File>): seq<seq<File>>
    decreases |rest|
  {
    if rest == [] then if current == [] then [] else [current]
    else if current != [] && !Fits(current + [rest[0]]) then [current] + Pack([rest[0]], rest[1..])
    else Pack(current + [rest[0]], rest[1..])
  }

  lemma ConcatFirst<T>(batch: seq<T>, batches: seq<seq<T>>)
    ensures Concat([batch] + batches) == batch + Concat(batches)
  {
    assert ([batch] + batches)[1..] == batches;
  }

  lemma {:induction false} PackSplits(current: seq<File>, rest: seq<File>)
    requires current == [] || Fits(current)
    ensures Split(Pack(current, rest), current + rest)
    decreases |rest|
  {
    if rest == [] {
      if current != [] { ConcatFirst(current, []); }
      assert current + rest == current;
    } else {
      assert rest == [rest[0]] + rest[1..];
      if current != [] && !Fits(current + [rest[0]]) {
        PackSplits([rest[0]], rest[1..]);
        ConcatFirst(current, Pack([rest[0]], rest[1..]));
      } else {
        PackSplits(current + [rest[0]], rest[1..]);
        assert current + rest == current + [rest[0]] + rest[1..];
      }
    }
  }

  lemma {:induction false} BytesOfParts(a: seq<File>, b: seq<File>)
    ensures Bytes(a + b) == Bytes(a) + Bytes(b)
  {
    if b == [] {
      assert a + b == a;
    } else {
      BytesOfParts(a, b[..|b| - 1]);
      assert (a + b)[..|a + b| - 1] == a + b[..|b| - 1];
    }
  }

  /** Part of what fits, fits. */
  lemma PartFits(a: seq<File>, b: seq<File>, c: seq<File>)
    requires Fits(a + b + c) && b != []
    ensures Fits(b)
  {
    BytesOfParts(a + b, c);
    BytesOfParts(a, b);
  }

  lemma FirstFits(current: seq<File>, rest: seq<File>, m: nat)
    requires 0 < m <= |rest| && Fits(current + rest[..m])
    ensures Fits(current + [rest[0]])
  {
    assert current + rest[..m] == [] + (current + [rest[0]]) + rest[1..m];
    PartFits([], current + [rest[0]], rest[1..m]);
  }

  /** One turn of the loop: the file joins the open batch, or starts the next. */
  lemma PackOne(current: seq<File>, rest: seq<File>)
    requires rest != []
    ensures Fits([rest[0]])
    ensures Fits(current + [rest[0]]) || current == [] ==> Pack(current, rest) == Pack(current + [rest[0]], rest[1..])
    ensures !Fits(current + [rest[0]]) && current != [] ==>
              Pack(current, rest) == [current] + Pack([rest[0]], rest[1..])
  {}

  /** Packing closes the open batch no earlier than any prefix of the rest it could have taken. */
  lemma {:induction false} PackTakes(current: seq<File>, rest: seq<File>, m: nat) returns (n: nat)
    requires m <= |rest| && current + rest[..m] != [] && Fits(current + rest[..m])
    ensures m <= n <= |rest|
    ensures Pack(current, rest) == [current + rest[..n]] + Pack([], rest[n..])
    decreases |rest|
  {
    if rest == [] {
      n := 0;
      assert current + rest[..0] == current;
    } else if m == 0 && !Fits(current + [rest[0]]) {
      n := ClosesNow(current, rest);
    } else {
      n := PackTakesNext(current, rest, m);
    }
  }

  lemma ClosesNow(current: seq<File>, rest: seq<File>) returns (n: nat)
    requires current != [] && rest != [] && !Fits(current + [rest[0]])
    ensures n == 0 && Pack(current, rest) == [current + rest[..n]] + Pack([], rest[n..])
  {
    hide Pack, Fits;
    PackOne(current, rest);
    PackOne([], rest);
    n := 0;
    assert current + rest[..0] == current && rest[0..] == rest && [] + [rest[0]] == [rest[0]];
  }

  lemma {:induction false} PackTakesNext(current: seq<File>, rest: seq<File>, m: nat) returns (n: nat)
    requires m <= |rest| && rest != [] && Fits(current + rest[..m]) && (m > 0 || Fits(current + [rest[0]]))
    ensures m <= n <= |rest|
    ensures Pack(current, rest) == [current + rest[..n]] + Pack([], rest[n..])
    decreases |rest|, 0
  {
    hide Pack, Fits;
    if m > 0 { FirstFits(current, rest, m); }
    PackOne(current, rest);
    var first, m' := current + [rest[0]], if m == 0 then 0 else m - 1;
    TakeOne(current, rest, m');
    assert m == 0 ==> first + rest[1..][..0] == first;
    var n' := PackTakes(first, rest[1..], m');
    TakeOne(current, rest, n');
    n := n' + 1;
  }

  lemma TakeOne(current: seq<File>, rest: seq<File>, n: nat)
    requires n < |rest|
    ensures current + [rest[0]] + rest[1..][..n] == current + rest[..n + 1] && rest[1..][n..] == rest[n + 1..]
  {}

  /** A suffix that starts inside the first batch: packing takes at least the rest of that batch. */
  lemma TakesFirst(first: seq<File>, rest: seq<File>, k: nat) returns (n: nat)
    requires k < |first| && Fits(first)
    ensures |first| - k <= n <= |(first + rest)[k..]|
    ensures Pack([], (first + rest)[k..]) == [(first + rest)[k..][..n]] + Pack([], rest[n - (|first| - k)..])
  {
    hide Pack, Fits;
    var suffix, m := (first + rest)[k..], |first| - k;
    assert first == first[..k] + first[k..] + [];
    PartFits(first[..k], first[k..], []);
    assert [] + suffix[..m] == first[k..];
    n := PackTakes([], suffix, m);
    assert [] + suffix[..n] == suffix[..n] && suffix[n..] == rest[n - m..];
  }

  /** However the files are split, packing any suffix of them needs no more batches. */
  lemma {:induction false} SuffixNeedsNoMore(split: seq<seq<File>>, files: seq<File>, k: nat)
    requires Split(split, files) && k <= |files|
    ensures |Pack([], files[k..])| <= |split|
    decreases |split|
  {
    if split != [] {
      hide Pack, Fits;
      var first, others := split[0], split[1..];
      assert first in split && forall b :: b in others ==> b in split;
      var rest := Concat(others);
      assert files == first + rest;
      if k >= |first| {
        SuffixNeedsNoMore(others, rest, k - |first|);
        assert files[k..] == rest[k - |first|..];
      } else {
        var n := TakesFirst(first, rest, k);
        SuffixNeedsNoMore(others, rest, n - (|first| - k));
      }
    }
  }

  /** No way of splitting the files into allowed requests uses fewer of them. */
  lemma PackIsOptimal(split: seq<seq<File>>, files: seq<File>)
    requires Split(split, files)
    ensures |Pack([], files)| <= |split|
  {
    SuffixNeedsNoMore(split, files, 0);
    assert files[0..] == files;
  }

  lemma FullMeansUnfit(current: seq<File>, file: File)
    requires current != []
    ensures Bytes(current + [file]) == Bytes(current) + file.size
    ensures (Bytes(current) + file.size > MAX_BYTES || |current| >= MAX_FILES) <==> !Fits(current + [file])
  {
    assert (current + [file])[..|current|] == current;
  }

  /** The batching loop of importCharacters. */
  method BuildBatches(files: seq<File>) returns (batches: seq<seq<File>>)
    ensures Split(batches, files)
    ensures forall split :: Split(split, files) ==> |batches| <= |split|
  {
    batches := [];
    var currentBatch: seq<File> := [];
    var currentBatchBytes := 0;
    var i := 0;
    while i < |files|
      invariant 0 <= i <= |files|
      invariant currentBatchBytes == Bytes(currentBatch)
      invariant batches + Pack(currentBatch, files[i..]) == Pack([], files)
    {
      hide Pack, Fits, Bytes;
      var file := files[i];
      PackOne(currentBatch, files[i..]);
      assert files[i..][1..] == files[i + 1..];
      if currentBatch != [] { FullMeansUnfit(currentBatch, file); }
      OneFile(file);
      if currentBatch != [] && (currentBatchBytes + file.size > MAX_BYTES || |currentBatch| >= MAX_FILES) {
        batches := batches + [currentBatch];
        currentBatch := [];
        currentBatchBytes := 0;
      }
      assert [] + [file] == [file];
      currentBatch := currentBatch + [file];
      currentBatchBytes := currentBatchBytes + file.size;
      i := i + 1;
    }
    assert files[|files|..] == [];
    if currentBatch != [] { batches := batches + [currentBatch]; }
    assert batches == Pack([], files);
    PackSplits([], files);
    assert [] + files == files;
    forall split | Split(split, files) ensures |batches| <= |split| { PackIsOptimal(split, files); }
  }

  lemma OneFile(file: File)
    ensures Bytes([]) == 0 && Bytes([file]) == file.size
  {}

  // ---------------------------------------------------------------------------------------------
  // Counting
  // ---------------------------------------------------------------------------------------------

  /** One entry of a response. */
  datatype Result = Skipped | Imported | Rejected

  /** What becomes of a batch: which files can be read, and what the requests answer. `Listed` is the
      response to the whole batch; without one each file is sent again and answered, or fails, alone. */
  datatype Reply = Listed(results: seq<Result>) | Alone(results: seq<Result>)

  datatype Outcome = Outcome(readable: seq<bool>, reply: Reply)

  /** The counters importCharacters returns. */
  datatype Counts = Counts(imported: nat, skipped: nat, failed: nat)

  function Readable(flags: seq<bool>): (n: nat)
    ensures n <= |flags|
  {
    if flags == [] then 0 else Readable(flags[..|flags| - 1]) + if flags[|flags| - 1] then 1 else 0
  }

  /** One flag per file, and one answer per file sent alone; a listed response may hold any number. */
  ghost predicate Answers(outcome: Outcome, batch: seq<File>) {
    && |outcome.readable| == |batch|
    && (outcome.reply.Alone? ==> |outcome.reply.results| == Readable(outcome.readable))
  }

  /** A batch without a readable file is not sent. */
  function Used(outcome: Outcome): seq<Result> {
    if Readable(outcome.readable) == 0 then [] else outcome.reply.results
  }

  function Count(results: seq<Result>, r: Result): (n: nat) {
    if results == [] then 0 else Count(results[..|results| - 1], r) + if results[|results| - 1] == r then 1 else 0
  }

  /** What one batch adds to the counters. */
  function Add(c: Counts, outcome: Outcome): Counts {
    var results := Used(outcome);
    Counts(c.imported + Count(results, Imported), c.skipped + Count(results, Skipped),
           c.failed + Count(results, Rejected) + (|outcome.readable| - Readable(outcome.readable)))
  }

  function AddAll(outcomes: seq<Outcome>): Counts {
    if outcomes == [] then Counts(0, 0, 0) else Add(AddAll(outcomes[..|outcomes| - 1]), outcomes[|outcomes| - 1])
  }

  method Tally(results: seq<Result>, c: Counts) returns (next: Counts)
    ensures next == Counts(c.imported + Count(results, Imported), c.skipped + Count(results, Skipped),
                           c.failed + Count(results, Rejected))
  {
    next := c;
    var i := 0;
    while i < |results|
      invariant 0 <= i <= |results|
      invariant next == Counts(c.imported + Count(results[..i], Imported), c.skipped + Count(results[..i], Skipped),
                               c.failed + Count(results[..i], Rejected))
    {
      assert results[..i + 1][..i] == results[..i];
      match results[i] {
        case Skipped => next := next.(skipped := next.skipped + 1);
        case Imported => next := next.(imported := next.imported + 1);
        case Rejected => next := next.(failed := next.failed + 1);
      }
      i := i + 1;
    }
    assert results[..|results|] == results;
  }

  /** One batch of importCharacters: read what can be read, send it, count what comes back. */
  method SendBatch(batch: seq<File>, outcome: Outcome, c: Counts) returns (next: Counts)
    requires Answers(outcome, batch)
    ensures next == Add(c, outcome)
  {
    next := c;
    var readableFiles: seq<File> := [];
    var k := 0;
    while k < |batch|
      invariant 0 <= k <= |batch| && |readableFiles| == Readable(outcome.readable[..k])
      invariant next == c.(failed := c.failed + (k - |readableFiles|)) && |readableFiles| <= k
    {
      assert outcome.readable[..k + 1][..k] == outcome.readable[..k];
      if outcome.readable[k] {
        readableFiles := readableFiles + [batch[k]];
      } else {
        next := next.(failed := next.failed + 1);
      }
      k := k + 1;
    }
    assert outcome.readable[..|batch|] == outcome.readable;
    if |readableFiles| > 0 { next := Tally(outcome.reply.results, next); }
  }

  method Upload(batches: seq<seq<File>>, outcomes: seq<Outcome>) returns (c: Counts)
    requires |outcomes| == |batches| && forall i :: 0 <= i < |batches| ==> Answers(outcomes[i], batches[i])
    ensures c == AddAll(outcomes)
  {
    c := Counts(0, 0, 0);
    var i := 0;
    while i < |batches|
      invariant 0 <= i <= |batches| && c == AddAll(outcomes[..i])
    {
      assert outcomes[..i + 1][..i] == outcomes[..i];
      c := SendBatch(batches[i], outcomes[i], c);
      i := i + 1;
    }
    assert outcomes[..|outcomes|] == outcomes;
  }

  /** How many results a listed response holds beyond one per file sent. */
  function Surplus(outcomes: seq<Outcome>): int {
    if outcomes == [] then 0
    else
      var last := outcomes[|outcomes| - 1];
      Surplus(outcomes[..|outcomes| - 1]) + |Used(last)| - Readable(last.readable)
  }

  lemma {:induction false} EveryResultCounted(results: seq<Result>)
    ensures Count(results, Imported) + Count(results, Skipped) + Count(results, Rejected) == |results|
  {
    if results != [] { EveryResultCounted(results[..|results| - 1]); }
  }

  lemma {:induction false} ConcatLast<T>(batches: seq<seq<T>>)
    requires batches != []
    ensures Concat(batches) == Concat(batches[..|batches| - 1]) + batches[|batches| - 1]
  {
    if |batches| > 1 {
      ConcatLast(batches[1..]);
      assert batches[1..][..|batches| - 2] == batches[..|batches| - 1][1..];
    }
  }

  /** Every file ends up in exactly one counter, but for listed responses that do not hold one result per
      file: imported, skipped and failed add up to the number of files exactly when those balance. */
  lemma {:induction false} EveryFileCounted(batches: seq<seq<File>>, outcomes: seq<Outcome>)
    requires |outcomes| == |batches| && forall i :: 0 <= i < |batches| ==> Answers(outcomes[i], batches[i])
    ensures var c := AddAll(outcomes); c.imported + c.skipped + c.failed == |Concat(batches)| + Surplus(outcomes)
    ensures (forall o :: o in outcomes && o.reply.Listed? ==> |Used(o)| == Readable(o.readable)) ==>
              Surplus(outcomes) == 0
  {
    if batches != [] {
      var n := |batches| - 1;
      EveryFileCounted(batches[..n], outcomes[..n]);
      EveryResultCounted(Used(outcomes[n]));
      ConcatLast(batches);
      assert Answers(outcomes[n], batches[n]) && outcomes[n] in outcomes;
      assert forall o :: o in outcomes[..n] ==> o in outcomes;
    }
  }

  // ---------------------------------------------------------------------------------------------
  // What each counter counts
  // ---------------------------------------------------------------------------------------------

  /** All results of batches in which some file could be read. */
  function AllResults(outcomes: seq<Outcome>): seq<Result> {
    if outcomes == [] then []
    else
      var last := outcomes[|outcomes| - 1];
      AllResults(outcomes[..|outcomes| - 1]) + if true in last.readable then last.reply.results else []
  }

  function AllFlags(outcomes: seq<Outcome>): seq<bool> {
    if outcomes == [] then [] else AllFlags(outcomes[..|outcomes| - 1]) + outcomes[|outcomes| - 1].readable
  }

  lemma {:induction false} CountIsMultiplicity(results: seq<Result>, r: Result)
    ensures Count(results, r) == multiset(results)[r]
  {
    if results != [] {
      var n := |results| - 1;
      CountIsMultiplicity(results[..n], r);
      assert results == results[..n] + [results[n]];
    }
  }

  lemma {:induction false} ReadableIsMultiplicity(flags: seq<bool>)
    ensures Readable(flags) == multiset(flags)[true] && |flags| - Readable(flags) == multiset(flags)[false]
  {
    if flags != [] {
      var n := |flags| - 1;
      ReadableIsMultiplicity(flags[..n]);
      assert flags == flags[..n] + [flags[n]];
    }
  }

  /** Imported and skipped count the results of their kind; failed counts the rejected results and the files that
      could not be read. */
  lemma {:induction false} CountersExactly(outcomes: seq<Outcome>)
    ensures var c, results := AddAll(outcomes), multiset(AllResults(outcomes));
            && c.imported == results[Imported] && c.skipped == results[Skipped]
            && c.failed == results[Rejected] + multiset(AllFlags(outcomes))[false]
  {
    if outcomes != [] {
      var n := |outcomes| - 1;
      var last, used := outcomes[n], Used(outcomes[n]);
      CountersExactly(outcomes[..n]);
      ReadableIsMultiplicity(last.readable);
      assert used == if true in last.readable then last.reply.results else [];
      CountIsMultiplicity(used, Imported);
      CountIsMultiplicity(used, Skipped);
      CountIsMultiplicity(used, Rejected);
      assert AllResults(outcomes) == AllResults(outcomes[..n]) + used;
      assert AllFlags(outcomes) == AllFlags(outcomes[..n]) + last.readable;
    }
  }

  /** A request holds a single file, or up to 50 files of up to 30 MiB together. */
  lemma FitsExactly(batch: seq<File>)
    ensures Fits(batch) <==> |batch| == 1 || (|batch| <= 50 && Bytes(batch) <= 31457280)
  {}
}
