/** The on-disk redo log of log.c as writes on disk images. Block writes are atomic
    and a crash may fall between any two of them, so a crashed commit is a prefix of
    the commit's writes, and a crashed recovery a prefix of the recovery's writes. */
module RedoLog {
  import opened Blocks

  type Image = seq<Block>
  datatype Write = Write(bno: nat, data: Block)

  /** `log.start` and `log.size`: a header block followed by size - 1 data blocks. */
  datatype Layout = Layout(start: nat, size: nat) {
    predicate Holds(b: nat) { start <= b < start + size }
  }

  /** LOGSIZE = MAXOPBLOCKS * 3: the length of `logheader.block`. */
  const LOGSIZE: nat := 30

  predicate InRange(d: Image, ws: seq<Write>) {
    forall i :: 0 <= i < |ws| ==> ws[i].bno < |d|
  }

  /** The disk after the first k writes. */
  function Apply(d: Image, ws: seq<Write>, k: nat): (r: Image)
    requires InRange(d, ws) && k <= |ws|
    ensures |r| == |d|
  {
    if k == 0 then d else Apply(d, ws, k - 1)[ws[k - 1].bno := ws[k - 1].data]
  }

  /** The disk after all the writes. */
  function ApplyAll(d: Image, ws: seq<Write>): (r: Image)
    requires InRange(d, ws)
    ensures |r| == |d|
  {
    Apply(d, ws, |ws|)
  }

  lemma {:induction false} ApplyHead(d: Image, a: seq<Write>, b: seq<Write>, k: nat)
    requires InRange(d, a) && InRange(d, b) && k <= |a|
    ensures Apply(d, a + b, k) == Apply(d, a, k)
  {
    if k != 0 {
      ApplyHead(d, a, b, k - 1);
    }
  }

  lemma {:induction false} ApplyTail(d: Image, a: seq<Write>, b: seq<Write>, k: nat)
    requires InRange(d, a) && InRange(d, b) && k <= |b|
    ensures Apply(d, a + b, |a| + k) == Apply(ApplyAll(d, a), b, k)
  {
    if k == 0 {
      ApplyHead(d, a, b, |a|);
    } else {
      ApplyTail(d, a, b, k - 1);
    }
  }

  lemma ApplySplit(d: Image, all: seq<Write>, a: seq<Write>, b: seq<Write>, k: nat)
    requires InRange(d, a) && InRange(d, b) && all == a + b && |a| <= k <= |all|
    ensures Apply(d, all, k) == Apply(ApplyAll(d, a), b, k - |a|)
  {
    ApplyTail(d, a, b, k - |a|);
  }

  // ---- The log header -------------------------------------------------------

  function HeadLength(b: Block): nat {
    WordAt(b, 0)
  }

  predicate HeadFits(b: Block) {
    HeadLength(b) <= LOGSIZE
  }

  /** read_head: the home block numbers listed by a header block. */
  function DecodeHead(b: Block): (h: seq<nat>)
    requires HeadFits(b)
  {
    seq(HeadLength(b), i requires 0 <= i < HeadLength(b) => WordAt(b, 1 + i))
  }

  /** write_head: word 0 and the first |h| entries are overwritten, the rest kept. */
  function EncodeHead(b: Block, h: seq<nat>): Block
    requires |h| <= LOGSIZE
  {
    StoreEntries(SetWord(b, 0, |h|), h, |h|)
  }

  function StoreEntries(b: Block, h: seq<nat>, n: nat): Block
    requires n <= |h| <= LOGSIZE
  {
    if n == 0 then b else SetWord(StoreEntries(b, h, n - 1), n, h[n - 1])
  }

  predicate Words(h: seq<nat>) {
    forall i :: 0 <= i < |h| ==> h[i] < WORD_LIMIT
  }

  lemma {:induction false} StoredEntry(b: Block, h: seq<nat>, n: nat, j: nat)
    requires n <= |h| <= LOGSIZE && Words(h) && j <= LOGSIZE
    ensures WordAt(StoreEntries(b, h, n), j) == if 1 <= j <= n then h[j - 1] else WordAt(b, j)
  {
    if n != 0 {
      StoredEntry(b, h, n - 1, j);
      WordStore(StoreEntries(b, h, n - 1), n, h[n - 1], j);
    }
  }

  /** What write_head stores is what read_head loads. */
  lemma HeadRoundTrip(b: Block, h: seq<nat>)
    requires |h| <= LOGSIZE && Words(h)
    ensures HeadFits(EncodeHead(b, h)) && DecodeHead(EncodeHead(b, h)) == h
  {
    var b0 := SetWord(b, 0, |h|);
    WordStore(b, 0, |h|, 0);
    StoredEntry(b0, h, |h|, 0);
    forall i | 0 <= i < |h|
      ensures WordAt(EncodeHead(b, h), 1 + i) == h[i]
    {
      StoredEntry(b0, h, |h|, 1 + i);
    }
  }

  // ---- Transactions ---------------------------------------------------------

  predicate Distinct(h: seq<nat>) {
    forall i, j :: 0 <= i < j < |h| ==> h[i] != h[j]
  }

  /** A header that commit may write: distinct home blocks outside the log region,
      with a log block for each of them. */
  predicate Legal(L: Layout, h: seq<nat>, size: nat) {
    && L.start + L.size <= size <= WORD_LIMIT
    && |h| < L.size && |h| <= LOGSIZE
    && Distinct(h)
    && forall i :: 0 <= i < |h| ==> h[i] < size && !L.Holds(h[i])
  }

  /** The scan of log_write: the first index of b, or |h|. */
  function Find(h: seq<nat>, b: nat): nat {
    FindFrom(h, b, 0)
  }

  function FindFrom(h: seq<nat>, b: nat, i: nat): (r: nat)
    requires i <= |h|
    ensures i <= r <= |h|
    ensures r < |h| ==> h[r] == b
    ensures forall j :: i <= j < r ==> h[j] != b
    decreases |h| - i
  {
    if i == |h| || h[i] == b then i else FindFrom(h, b, i + 1)
  }

  lemma FindAt(h: seq<nat>, t: nat)
    requires Distinct(h) && t < |h|
    ensures Find(h, h[t]) == t
  {
    var i := Find(h, h[t]);
    assert i <= t;
  }

  function CopyWrites(to: seq<nat>, data: seq<Block>): seq<Write>
    requires |to| == |data|
  {
    seq(|to|, i requires 0 <= i < |to| => Write(to[i], data[i]))
  }

  function LogBlocks(L: Layout, n: nat): seq<nat> {
    seq(n, i => L.start + 1 + i)
  }

  /** The copies the log holds. */
  function Logged(d: Image, L: Layout, n: nat): seq<Block>
    requires L.start + 1 + n <= |d|
  {
    seq(n, t requires 0 <= t < n => d[L.start + 1 + t])
  }

  /** Any prefix of a copy to distinct blocks: block by block, either done or not yet. */
  lemma {:induction false} CopyPrefix(d: Image, to: seq<nat>, data: seq<Block>, k: nat, b: nat)
    requires |to| == |data| && k <= |to| && b < |d|
    requires forall i :: 0 <= i < |to| ==> to[i] < |d|
    requires Distinct(to)
    ensures Apply(d, CopyWrites(to, data), k)[b]
            == var t := Find(to, b); if t < k then data[t] else d[b]
  {
    if k != 0 {
      CopyPrefix(d, to, data, k - 1, b);
      FindAt(to, k - 1);
    }
  }

  /** The last two phases of a commit: install_trans, then write_head with n = 0. */
  function InstallAndClear(L: Layout, h: seq<nat>, data: seq<Block>, head: Block): seq<Write>
    requires |h| == |data|
  {
    CopyWrites(h, data) + [Write(L.start, EncodeHead(head, []))]
  }

  /** recover_from_log, after read_head. */
  function RecoverWrites(d: Image, L: Layout): (ws: seq<Write>)
    requires Recoverable(d, L)
    ensures InRange(d, ws)
  {
    var h := DecodeHead(d[L.start]);
    InstallAndClear(L, h, Logged(d, L, |h|), d[L.start])
  }

  /** The first two phases of a commit: write_log, then write_head. */
  function LogAndHead(L: Layout, h: seq<nat>, data: seq<Block>, head: Block): seq<Write>
    requires |h| == |data| <= LOGSIZE
  {
    CopyWrites(LogBlocks(L, |h|), data) + [Write(L.start, EncodeHead(head, h))]
  }

  /** commit: nothing is written when nothing was logged. */
  function CommitWrites(d: Image, L: Layout, h: seq<nat>, data: seq<Block>): (ws: seq<Write>)
    requires |h| == |data| && Legal(L, h, |d|)
    ensures InRange(d, ws)
    ensures |ws| == if h == [] then 0 else 2 * |h| + 2
  {
    if h == [] then []
    else
      LogAndHead(L, h, data, d[L.start])
      + InstallAndClear(L, h, data, EncodeHead(d[L.start], h))
  }

  predicate Recoverable(d: Image, L: Layout) {
    && L.start < |d|
    && HeadFits(d[L.start])
    && Legal(L, DecodeHead(d[L.start]), |d|)
  }

  predicate Clean(d: Image, L: Layout) {
    && Recoverable(d, L)
    && HeadLength(d[L.start]) == 0
  }

  /** What home block b holds once the log has been replayed. */
  function Settled(d: Image, L: Layout, b: nat): Block
    requires Recoverable(d, L) && b < |d|
  {
    var h := DecodeHead(d[L.start]);
    var t := Find(h, b);
    if t < |h| then d[L.start + 1 + t] else d[b]
  }

  /** Two images that agree outside the log region. */
  predicate SameHome(d: Image, e: Image, L: Layout) {
    && |d| == |e|
    && forall b :: 0 <= b < |d| && !L.Holds(b) ==> d[b] == e[b]
  }

  /** Both images replay to the same home blocks. */
  predicate SameSettled(d: Image, e: Image, L: Layout) {
    && |d| == |e| && Recoverable(d, L) && Recoverable(e, L)
    && forall b :: 0 <= b < |d| && !L.Holds(b) ==> Settled(d, L, b) == Settled(e, L, b)
  }

  /** The image with a transaction's blocks in place. */
  function Updated(d: Image, h: seq<nat>, data: seq<Block>): (r: Image)
    requires |h| == |data| && forall i :: 0 <= i < |h| ==> h[i] < |d|
    ensures |r| == |d|
  {
    ApplyAll(d, CopyWrites(h, data))
  }

  lemma ClearedHead(b: Block)
    ensures HeadFits(EncodeHead(b, [])) && HeadLength(EncodeHead(b, [])) == 0
    ensures DecodeHead(EncodeHead(b, [])) == []
  {
    HeadRoundTrip(b, []);
  }

  // ---- Recovery, cut off anywhere ---------------------------------------------

  /** Overwriting listed home blocks changes nothing that replay would not overwrite. */
  lemma ReplayAgain(d: Image, e: Image, L: Layout)
    requires Recoverable(d, L) && |e| == |d| && e[L.start] == d[L.start]
    requires var h := DecodeHead(d[L.start]);
      && Logged(e, L, |h|) == Logged(d, L, |h|)
      && forall b :: 0 <= b < |d| && !L.Holds(b) && Find(h, b) == |h| ==> e[b] == d[b]
    ensures SameSettled(d, e, L)
  {
    var h := DecodeHead(d[L.start]);
    forall b | 0 <= b < |d| && !L.Holds(b)
      ensures Settled(d, L, b) == Settled(e, L, b)
    {
      var t := Find(h, b);
      if t < |h| {
        assert Logged(e, L, |h|)[t] == Logged(d, L, |h|)[t];
      }
    }
  }

  /** install_trans cut off after k of its writes, at block b. */
  lemma InstallPrefix(d: Image, L: Layout, k: nat, b: nat)
    requires Recoverable(d, L) && k <= HeadLength(d[L.start]) && b < |d|
    ensures var h := DecodeHead(d[L.start]);
      Apply(d, CopyWrites(h, Logged(d, L, |h|)), k)[b]
      == if Find(h, b) < k then Settled(d, L, b) else d[b]
  {
    var h := DecodeHead(d[L.start]);
    CopyPrefix(d, h, Logged(d, L, |h|), k, b);
  }

  lemma RecoveryUndone(d: Image, L: Layout, k: nat)
    requires Recoverable(d, L) && k <= HeadLength(d[L.start])
    ensures SameSettled(d, Apply(d, RecoverWrites(d, L), k), L)
  {
    var h := DecodeHead(d[L.start]);
    var copies := CopyWrites(h, Logged(d, L, |h|));
    ApplyHead(d, copies, [Write(L.start, EncodeHead(d[L.start], []))], k);
    var e := Apply(d, copies, k);
    forall b | 0 <= b < |d|
      ensures Find(h, b) == |h| ==> e[b] == d[b]
      ensures L.Holds(b) ==> Find(h, b) == |h|
    {
      InstallPrefix(d, L, k, b);
    }
    ReplayAgain(d, e, L);
  }

  lemma RecoveryDone(d: Image, L: Layout)
    requires Recoverable(d, L)
    ensures var e := ApplyAll(d, RecoverWrites(d, L));
      && Clean(e, L)
      && forall b :: 0 <= b < |d| && !L.Holds(b) ==> e[b] == Settled(d, L, b)
  {
    var h := DecodeHead(d[L.start]);
    var copies := CopyWrites(h, Logged(d, L, |h|));
    var clear := [Write(L.start, EncodeHead(d[L.start], []))];
    ApplyHead(d, copies, clear, |h|);
    ClearedHead(d[L.start]);
    var e := ApplyAll(d, RecoverWrites(d, L));
    assert e == Apply(d, copies, |h|)[L.start := EncodeHead(d[L.start], [])];
    assert Clean(e, L);
    forall b | 0 <= b < |d| && !L.Holds(b)
      ensures e[b] == Settled(d, L, b)
    {
      InstallPrefix(d, L, |h|, b);
    }
  }

  lemma CleanSettled(e: Image, L: Layout, b: nat)
    requires Clean(e, L) && b < |e|
    ensures Settled(e, L, b) == e[b]
  {
  }

  /** A recovery cut off after k writes leaves an image that replays to the same home
      blocks; a completed one has put them in place and emptied the log. */
  lemma RecoveryPrefix(d: Image, L: Layout, k: nat)
    requires Recoverable(d, L) && k <= |RecoverWrites(d, L)|
    ensures SameSettled(d, Apply(d, RecoverWrites(d, L), k), L)
    ensures k == |RecoverWrites(d, L)| ==> Clean(Apply(d, RecoverWrites(d, L), k), L)
  {
    if k <= HeadLength(d[L.start]) {
      RecoveryUndone(d, L, k);
    } else {
      RecoveryDone(d, L);
      var e := ApplyAll(d, RecoverWrites(d, L));
      forall b | 0 <= b < |d| && !L.Holds(b)
        ensures Settled(d, L, b) == Settled(e, L, b)
      {
        CleanSettled(e, L, b);
      }
    }
  }

  /** Recovery attempts that each crash after some number of writes. */
  function CrashedRecoveries(d: Image, L: Layout, ks: seq<nat>): (e: Image)
    requires Recoverable(d, L)
    ensures SameSettled(d, e, L)
    decreases |ks|
  {
    if ks == [] then d
    else
      var ws := RecoverWrites(d, L);
      var k := if ks[0] <= |ws| then ks[0] else |ws|;
      RecoveryPrefix(d, L, k);
      CrashedRecoveries(Apply(d, ws, k), L, ks[1..])
  }

  /** A completed run of recover_from_log. */
  function Recovered(d: Image, L: Layout): (e: Image)
    requires Recoverable(d, L)
    ensures Clean(e, L) && |e| == |d|
    ensures forall b :: 0 <= b < |d| && !L.Holds(b) ==> e[b] == Settled(d, L, b)
  {
    RecoveryDone(d, L);
    ApplyAll(d, RecoverWrites(d, L))
  }

  // ---- A commit, cut off anywhere ---------------------------------------------

  lemma LogBlocksDistinct(L: Layout, n: nat)
    ensures Distinct(LogBlocks(L, n))
  {
  }

  /** The logging phase cut off after k writes: only log blocks have changed. */
  lemma LoggingPrefix(d: Image, L: Layout, data: seq<Block>, k: nat, b: nat)
    requires |data| < L.size && L.start + L.size <= |d| && k <= |data| && b < |d|
    ensures var e := Apply(d, CopyWrites(LogBlocks(L, |data|), data), k);
      && (!L.Holds(b) || b == L.start ==> e[b] == d[b])
      && (forall t :: b == L.start + 1 + t && 0 <= t < k ==> e[b] == data[t])
  {
    var to := LogBlocks(L, |data|);
    LogBlocksDistinct(L, |data|);
    CopyPrefix(d, to, data, k, b);
    if L.start < b <= L.start + k {
      FindAt(to, b - L.start - 1);
    }
  }

  /** e lists h in its header and holds the copies, with the home blocks of d. */
  ghost predicate Committed(d: Image, L: Layout, h: seq<nat>, data: seq<Block>, e: Image)
    requires |h| == |data| && Legal(L, h, |d|)
  {
    && |e| == |d| && HeadFits(e[L.start]) && DecodeHead(e[L.start]) == h
    && Logged(e, L, |h|) == data
    && SameHome(d, e, L)
  }

  /** The image just after the header write. */
  lemma HeaderWritten(d: Image, L: Layout, h: seq<nat>, data: seq<Block>)
    requires |h| == |data| && Legal(L, h, |d|)
    ensures var e := ApplyAll(d, LogAndHead(L, h, data, d[L.start]));
      && Committed(d, L, h, data, e) && e[L.start] == EncodeHead(d[L.start], h)
  {
    var n := |h|;
    var logging := CopyWrites(LogBlocks(L, n), data);
    var head := EncodeHead(d[L.start], h);
    ApplyHead(d, logging, [Write(L.start, head)], n);
    HeadRoundTrip(d[L.start], h);
    forall b | 0 <= b < |d|
      ensures var e := Apply(d, logging, n);
        && (!L.Holds(b) ==> e[b] == d[b])
        && (forall t :: b == L.start + 1 + t && 0 <= t < n ==> e[b] == data[t])
    {
      LoggingPrefix(d, L, data, n, b);
    }
  }

  /** From the header write on, commit does exactly what recovery would do. */
  lemma CommitIsRecovery(d: Image, L: Layout, h: seq<nat>, data: seq<Block>, e: Image)
    requires |h| == |data| && Legal(L, h, |d|)
    requires Committed(d, L, h, data, e) && e[L.start] == EncodeHead(d[L.start], h)
    ensures Recoverable(e, L)
    ensures InstallAndClear(L, h, data, EncodeHead(d[L.start], h)) == RecoverWrites(e, L)
  {
  }

  lemma CommittedSettles(d: Image, L: Layout, h: seq<nat>, data: seq<Block>, e: Image, b: nat)
    requires |h| == |data| && Legal(L, h, |d|) && Committed(d, L, h, data, e)
    requires b < |d| && !L.Holds(b)
    ensures Recoverable(e, L) && Settled(e, L, b) == Updated(d, h, data)[b]
  {
    CopyPrefix(d, h, data, |h|, b);
    var t := Find(h, b);
    if t < |h| {
      assert Logged(e, L, |h|)[t] == data[t];
    }
  }

  /** A commit cut off before its header write has changed no home block. */
  lemma CommitUndecided(d: Image, L: Layout, h: seq<nat>, data: seq<Block>, k: nat)
    requires |h| == |data| && Legal(L, h, |d|) && Clean(d, L) && h != [] && k <= |h|
    ensures var e := Apply(d, CommitWrites(d, L, h, data), k);
      SameHome(d, e, L) && Clean(e, L)
  {
    var logging := CopyWrites(LogBlocks(L, |h|), data);
    var first := LogAndHead(L, h, data, d[L.start]);
    var second := InstallAndClear(L, h, data, EncodeHead(d[L.start], h));
    ApplyHead(d, first, second, k);
    ApplyHead(d, logging, [Write(L.start, EncodeHead(d[L.start], h))], k);
    forall b | 0 <= b < |d| && (!L.Holds(b) || b == L.start)
      ensures Apply(d, logging, k)[b] == d[b]
    {
      LoggingPrefix(d, L, data, k, b);
    }
  }

  lemma CommitAsRecovery(d: Image, L: Layout, h: seq<nat>, data: seq<Block>, e: Image, k: nat)
    requires |h| == |data| && Legal(L, h, |d|) && h != [] && |h| < k <= 2 * |h| + 2
    requires e == ApplyAll(d, LogAndHead(L, h, data, d[L.start]))
    ensures Committed(d, L, h, data, e) && Recoverable(e, L)
    ensures |RecoverWrites(e, L)| == |h| + 1
    ensures Apply(d, CommitWrites(d, L, h, data), k) == Apply(e, RecoverWrites(e, L), k - |h| - 1)
  {
    var first := LogAndHead(L, h, data, d[L.start]);
    var second := InstallAndClear(L, h, data, EncodeHead(d[L.start], h));
    ApplySplit(d, CommitWrites(d, L, h, data), first, second, k);
    HeaderWritten(d, L, h, data);
    CommitIsRecovery(d, L, h, data, e);
  }

  lemma SettledThrough(d: Image, L: Layout, h: seq<nat>, data: seq<Block>, e: Image, f: Image)
    requires |h| == |data| && Legal(L, h, |d|) && Committed(d, L, h, data, e)
    requires SameSettled(e, f, L)
    ensures forall b :: 0 <= b < |d| && !L.Holds(b) ==> Settled(f, L, b) == Updated(d, h, data)[b]
  {
    forall b | 0 <= b < |d| && !L.Holds(b)
      ensures Settled(f, L, b) == Updated(d, h, data)[b]
    {
      CommittedSettles(d, L, h, data, e, b);
      assert Settled(e, L, b) == Settled(f, L, b);
    }
  }

  /** A commit cut off after its header write replays to the whole transaction. */
  lemma CommitDecided(d: Image, L: Layout, h: seq<nat>, data: seq<Block>, k: nat, f: Image)
    requires |h| == |data| && Legal(L, h, |d|) && h != []
    requires |h| < k <= 2 * |h| + 2
    requires f == Apply(d, CommitWrites(d, L, h, data), k)
    ensures Recoverable(f, L)
    ensures forall b :: 0 <= b < |d| && !L.Holds(b) ==> Settled(f, L, b) == Updated(d, h, data)[b]
    ensures k == 2 * |h| + 2 ==> Clean(f, L)
  {
    hide *;
    LegalHead(L, h, |d|);
    FirstInRange(d, L, h, data);
    var e := ApplyAll(d, LogAndHead(L, h, data, d[L.start]));
    CommitAsRecovery(d, L, h, data, e, k);
    RecoveryAfter(d, L, h, data, e, k - |h| - 1, f);
  }

  lemma LegalHead(L: Layout, h: seq<nat>, n: nat)
    requires Legal(L, h, n)
    ensures L.start < n && |h| <= LOGSIZE
  {
  }

  lemma FirstInRange(d: Image, L: Layout, h: seq<nat>, data: seq<Block>)
    requires |h| == |data| && Legal(L, h, |d|)
    ensures InRange(d, LogAndHead(L, h, data, d[L.start]))
  {
    hide EncodeHead;
    hide Distinct;
  }

  lemma RecoveryAfter(d: Image, L: Layout, h: seq<nat>, data: seq<Block>, e: Image, j: nat, f: Image)
    requires |h| == |data| && Legal(L, h, |d|) && Committed(d, L, h, data, e)
    requires Recoverable(e, L) && j <= |RecoverWrites(e, L)| && f == Apply(e, RecoverWrites(e, L), j)
    ensures Recoverable(f, L) && (j == |RecoverWrites(e, L)| ==> Clean(f, L))
    ensures forall b :: 0 <= b < |d| && !L.Holds(b) ==> Settled(f, L, b) == Updated(d, h, data)[b]
  {
    RecoveryPrefix(e, L, j);
    SettledThrough(d, L, h, data, e, f);
  }

  /** What a commit that was cut off after k writes will replay to. */
  lemma CrashedCommit(d: Image, L: Layout, h: seq<nat>, data: seq<Block>, k: nat)
    requires |h| == |data| && Legal(L, h, |d|) && Clean(d, L)
    requires k <= |CommitWrites(d, L, h, data)|
    ensures var e := Apply(d, CommitWrites(d, L, h, data), k);
      && Recoverable(e, L)
      && (forall b :: 0 <= b < |d| && !L.Holds(b) ==>
            Settled(e, L, b) == if k > |h| then Updated(d, h, data)[b] else d[b])
      && (k == |CommitWrites(d, L, h, data)| ==> Clean(e, L))
  {
    if h != [] {
      if k <= |h| {
        CommitUndecided(d, L, h, data, k);
      } else {
        CommitDecided(d, L, h, data, k, Apply(d, CommitWrites(d, L, h, data), k));
      }
    }
  }

  /** Crash atomicity. Crash a commit after any k of its block writes, let any number
      of recoveries crash, and complete one: every home block is as after the
      transaction if the header write reached the disk, and as before it if not. */
  lemma CrashAtomicity(d: Image, L: Layout, h: seq<nat>, data: seq<Block>, k: nat, ks: seq<nat>)
    requires |h| == |data| && Legal(L, h, |d|) && Clean(d, L)
    requires k <= |CommitWrites(d, L, h, data)|
    ensures var crashed := Apply(d, CommitWrites(d, L, h, data), k);
      && Recoverable(crashed, L)
      && var e := Recovered(CrashedRecoveries(crashed, L, ks), L);
      && Clean(e, L)
      && SameHome(e, if k > |h| then Updated(d, h, data) else d, L)
  {
    CrashedCommit(d, L, h, data, k);
  }

  // ---- Whole runs -------------------------------------------------------------

  datatype Transaction = Transaction(h: seq<nat>, data: seq<Block>)

  predicate LegalRun(L: Layout, txs: seq<Transaction>, size: nat) {
    forall i :: 0 <= i < |txs| ==> |txs[i].h| == |txs[i].data| && Legal(L, txs[i].h, size)
  }

  /** All the block writes of a run of commits, oldest first. */
  function RunWrites(d: Image, L: Layout, txs: seq<Transaction>): (ws: seq<Write>)
    requires Clean(d, L) && LegalRun(L, txs, |d|)
    ensures InRange(d, ws)
    decreases |txs|
  {
    if txs == [] then []
    else
      var ws := CommitWrites(d, L, txs[0].h, txs[0].data);
      CrashedCommit(d, L, txs[0].h, txs[0].data, |ws|);
      ws + RunWrites(ApplyAll(d, ws), L, txs[1..])
  }

  /** How many of the transactions have their header on disk after k writes. */
  function CommittedCount(txs: seq<Transaction>, k: nat): (m: nat)
    ensures m <= |txs|
    decreases |txs|
  {
    if txs == [] then 0
    else
      var n := |txs[0].h|;
      var all := if n == 0 then 0 else 2 * n + 2;
      if all <= k then 1 + CommittedCount(txs[1..], k - all)
      else if n < k then 1 else 0
  }

  /** The first m transactions applied one after the other to the home blocks. */
  function Replay(d: Image, L: Layout, txs: seq<Transaction>, m: nat): (r: Image)
    requires LegalRun(L, txs, |d|) && m <= |txs|
    ensures |r| == |d|
    decreases m
  {
    if m == 0 then d
    else
      var t := txs[m - 1];
      Updated(Replay(d, L, txs, m - 1), t.h, t.data)
  }

  /** Replaying the later transactions depends on the home blocks only. */
  lemma {:induction false} ReplayHome(d: Image, e: Image, L: Layout, txs: seq<Transaction>, m: nat)
    requires LegalRun(L, txs, |d|) && m <= |txs| && SameHome(d, e, L)
    ensures SameHome(Replay(d, L, txs, m), Replay(e, L, txs, m), L)
  {
    if m != 0 {
      ReplayHome(d, e, L, txs, m - 1);
      UpdatedHome(Replay(d, L, txs, m - 1), Replay(e, L, txs, m - 1), L, txs[m - 1]);
    }
  }

  lemma UpdatedHome(d: Image, e: Image, L: Layout, t: Transaction)
    requires |t.h| == |t.data| && Legal(L, t.h, |d|) && SameHome(d, e, L)
    ensures SameHome(Updated(d, t.h, t.data), Updated(e, t.h, t.data), L)
  {
    forall b | 0 <= b < |d| && !L.Holds(b)
      ensures Updated(d, t.h, t.data)[b] == Updated(e, t.h, t.data)[b]
    {
      CopyPrefix(d, t.h, t.data, |t.h|, b);
      CopyPrefix(e, t.h, t.data, |t.h|, b);
    }
  }

  lemma {:induction false} ReplayFirst(d: Image, L: Layout, txs: seq<Transaction>, m: nat)
    requires LegalRun(L, txs, |d|) && m < |txs|
    ensures Replay(d, L, txs, m + 1)
            == Replay(Updated(d, txs[0].h, txs[0].data), L, txs[1..], m)
  {
    if m != 0 {
      ReplayFirst(d, L, txs, m - 1);
    }
  }

  lemma CommitFinished(d: Image, L: Layout, t: Transaction, e: Image)
    requires Clean(d, L) && |t.h| == |t.data| && Legal(L, t.h, |d|)
    requires e == ApplyAll(d, CommitWrites(d, L, t.h, t.data))
    ensures Clean(e, L) && SameHome(Updated(d, t.h, t.data), e, L)
  {
    CrashedCommit(d, L, t.h, t.data, |CommitWrites(d, L, t.h, t.data)|);
    forall b | 0 <= b < |d| && !L.Holds(b)
      ensures Updated(d, t.h, t.data)[b] == e[b]
    {
      CleanSettled(e, L, b);
    }
  }

  /** Recovery of a crashed image gives the home blocks of r. */
  predicate RecoversTo(crashed: Image, L: Layout, r: Image) {
    Recoverable(crashed, L) && SameHome(Recovered(crashed, L), r, L)
  }

  /** The run has passed its first commit: go on with the others. */
  lemma RunStep(d: Image, L: Layout, txs: seq<Transaction>, e: Image, crashed: Image, m: nat)
    requires Clean(d, L) && LegalRun(L, txs, |d|) && 0 < |txs|
    requires e == ApplyAll(d, CommitWrites(d, L, txs[0].h, txs[0].data)) && m < |txs|
    requires RecoversTo(crashed, L, Replay(e, L, txs[1..], m))
    ensures RecoversTo(crashed, L, Replay(d, L, txs, m + 1))
  {
    CommitFinished(d, L, txs[0], e);
    ReplayHome(Updated(d, txs[0].h, txs[0].data), e, L, txs[1..], m);
    ReplayFirst(d, L, txs, m);
  }

  /** The cut falls inside the first commit. */
  lemma RunCut(d: Image, L: Layout, txs: seq<Transaction>, k: nat)
    requires Clean(d, L) && LegalRun(L, txs, |d|) && 0 < |txs|
    requires k < |CommitWrites(d, L, txs[0].h, txs[0].data)|
    ensures RecoversTo(Apply(d, CommitWrites(d, L, txs[0].h, txs[0].data), k), L,
                       Replay(d, L, txs, CommittedCount(txs, k)))
  {
    var h, data := txs[0].h, txs[0].data;
    CrashAtomicity(d, L, h, data, k, []);
    assert Replay(d, L, txs, 1) == Updated(Replay(d, L, txs, 0), h, data);
  }

  lemma RunWritesStep(d: Image, L: Layout, txs: seq<Transaction>, e: Image, ws: seq<Write>)
    requires Clean(d, L) && LegalRun(L, txs, |d|) && 0 < |txs|
    requires ws == CommitWrites(d, L, txs[0].h, txs[0].data) && e == ApplyAll(d, ws)
    ensures Clean(e, L)
    ensures RunWrites(d, L, txs) == ws + RunWrites(e, L, txs[1..]) && InRange(d, RunWrites(e, L, txs[1..]))
  {
    CommitFinished(d, L, txs[0], e);
  }

  lemma NothingRun(d: Image, L: Layout, k: nat)
    requires Clean(d, L) && LegalRun(L, [], |d|) && k <= |RunWrites(d, L, [])|
    ensures RecoversTo(Apply(d, RunWrites(d, L, []), k), L, Replay(d, L, [], CommittedCount([], k)))
  {
    CrashAtomicity(d, L, [], [], 0, []);
  }

  /** The run has passed its first commit. */
  lemma CountPassed(d: Image, L: Layout, txs: seq<Transaction>, ws: seq<Write>, k: nat)
    requires Clean(d, L) && LegalRun(L, txs, |d|) && 0 < |txs|
    requires ws == CommitWrites(d, L, txs[0].h, txs[0].data) && |ws| <= k
    ensures CommittedCount(txs, k) == CommittedCount(txs[1..], k - |ws|) + 1
  {
  }

  lemma RestLegal(L: Layout, txs: seq<Transaction>, size: nat)
    requires LegalRun(L, txs, size) && 0 < |txs|
    ensures LegalRun(L, txs[1..], size) && |txs[0].h| == |txs[0].data| && Legal(L, txs[0].h, size)
  {
  }

  /** Crash safety of a whole run. Cut the stream of block writes of any number of
      commits anywhere: replaying the log gives exactly the transactions whose header
      write got through, each whole and in order, and nothing of any other. */
  lemma {:induction false} RunAtomicity(d: Image, L: Layout, txs: seq<Transaction>, k: nat)
    requires Clean(d, L) && LegalRun(L, txs, |d|) && k <= |RunWrites(d, L, txs)|
    ensures RecoversTo(Apply(d, RunWrites(d, L, txs), k), L,
                       Replay(d, L, txs, CommittedCount(txs, k)))
    decreases |txs|
  {
    hide *;
    if txs == [] {
      NothingRun(d, L, k);
    } else {
      RestLegal(L, txs, |d|);
      var ws := CommitWrites(d, L, txs[0].h, txs[0].data);
      var e := ApplyAll(d, ws);
      RunWritesStep(d, L, txs, e, ws);
      var rest := RunWrites(e, L, txs[1..]);
      if k < |ws| {
        ApplyHead(d, ws, rest, k);
        RunCut(d, L, txs, k);
      } else {
        var j := k - |ws|;
        RunAtomicity(e, L, txs[1..], j);
        RunStep(d, L, txs, e, Apply(e, rest, j), CommittedCount(txs[1..], j));
        ApplySplit(d, RunWrites(d, L, txs), ws, rest, k);
        CountPassed(d, L, txs, ws, k);
      }
    }
  }
}
