/**
 * The sender's directory as explicit files, the file operations of the outbox,
 * and what a SIGKILL leaves behind. A kill may fall between any two operations
 * and inside a write after any of its bytes; the kernel keeps every completed one.
 */
module Disk {
  import opened Basics

  /** Byte files: outbox.jsonl, failed.jsonl and outbox.jsonl.compact. */
  datatype TextFile = Journal | Failed | Compact

  /** JSON files, each written as <name>.tmp first and then renamed into place. */
  datatype DocFile = Checkpoint | Manifest

  /**
   * The parsed content of a JSON file. Every strict prefix of an object's text
   * lacks its closing brace, so a torn write always parses as Garbled. A field
   * is None when it is absent or not a non-negative integer.
   */
  datatype Doc =
    | Garbled
    | Fields(offset: Option<nat>, journalBaseCount: Option<nat>, confirmedSinceCompaction: Option<nat>)

  datatype Disk = Disk(text: map<TextFile, Bytes>, docs: map<DocFile, Doc>, tmps: map<DocFile, Doc>)

  const EMPTY_DISK := Disk(map[], map[], map[])

  datatype FileOp =
    | OpenAppend(file: TextFile)
    | Append(file: TextFile, data: Bytes)
    | Truncate(file: TextFile, length: nat)
    | WriteText(file: TextFile, data: Bytes)
    | RenameText(from: TextFile, file: TextFile)
    | UnlinkText(file: TextFile)
    | WriteTmp(target: DocFile, doc: Doc)
    | CommitTmp(target: DocFile)
    | UnlinkDoc(target: DocFile)

  function Read(d: Disk, f: TextFile): Bytes {
    if f in d.text then d.text[f] else []
  }

  function WithText(d: Disk, f: TextFile, b: Bytes): Disk {
    d.(text := d.text[f := b])
  }

  /** A completed operation. Renaming a missing file fails in the source; here it changes nothing. */
  function Exec(d: Disk, op: FileOp): Disk {
    match op
    case OpenAppend(f) => WithText(d, f, Read(d, f))
    case Append(f, data) => WithText(d, f, Read(d, f) + data)
    case Truncate(f, length) =>
      if f in d.text && length <= |d.text[f]| then WithText(d, f, d.text[f][..length]) else d
    case WriteText(f, data) => WithText(d, f, data)
    case RenameText(from, to) =>
      if from in d.text && from != to then d.(text := d.text[to := d.text[from]] - {from}) else d
    case UnlinkText(f) => d.(text := d.text - {f})
    case WriteTmp(t, doc) => d.(tmps := d.tmps[t := doc])
    case CommitTmp(t) =>
      if t in d.tmps then d.(docs := d.docs[t := d.tmps[t]], tmps := d.tmps - {t}) else d
    case UnlinkDoc(t) => d.(docs := d.docs - {t})
  }

  function ExecAll(d: Disk, ops: seq<FileOp>): Disk
    decreases |ops|
  {
    if ops == [] then d else ExecAll(Exec(d, ops[0]), ops[1..])
  }

  /** The disks a kill inside one operation can leave, besides the ones before and after it. */
  ghost predicate Torn(d: Disk, op: FileOp, d': Disk) {
    match op
    case Append(f, data) => exists k: nat :: k <= |data| && d' == WithText(d, f, Read(d, f) + data[..k])
    case WriteText(f, data) => exists k: nat :: k <= |data| && d' == WithText(d, f, data[..k])
    case WriteTmp(t, _) => d' == d.(tmps := d.tmps[t := Garbled])
    case _ => false
  }

  /** The disks a kill at any point of a sequence of operations can leave. */
  ghost predicate KilledDuring(d: Disk, ops: seq<FileOp>, d': Disk)
    decreases |ops|
  {
    d' == d || (ops != [] && (Torn(d, ops[0], d') || KilledDuring(Exec(d, ops[0]), ops[1..], d')))
  }

  lemma {:induction false} ExecAppend(d: Disk, a: seq<FileOp>, b: seq<FileOp>)
    ensures ExecAll(d, a + b) == ExecAll(ExecAll(d, a), b)
    decreases |a|
  {
    if a == [] {
      assert a + b == b;
    } else {
      assert (a + b)[1..] == a[1..] + b;
      ExecAppend(Exec(d, a[0]), a[1..], b);
    }
  }

  /** A kill during two stages falls into the first, or into the second after the first completed. */
  lemma {:induction false} KilledInStages(d: Disk, a: seq<FileOp>, b: seq<FileOp>, d': Disk)
    requires KilledDuring(d, a + b, d')
    ensures KilledDuring(d, a, d') || KilledDuring(ExecAll(d, a), b, d')
    decreases |a|
  {
    if a == [] {
      assert a + b == b;
    } else {
      assert (a + b)[1..] == a[1..] + b && (a + b)[0] == a[0];
      if d' != d && !Torn(d, a[0], d') {
        KilledInStages(Exec(d, a[0]), a[1..], b, d');
      }
    }
  }

  lemma {:induction false} CompletedIsReachable(d: Disk, ops: seq<FileOp>)
    ensures KilledDuring(d, ops, ExecAll(d, ops))
    decreases |ops|
  {
    if ops != [] {
      CompletedIsReachable(Exec(d, ops[0]), ops[1..]);
    }
  }

  lemma KilledAtOnce(d: Disk, ops: seq<FileOp>)
    ensures KilledDuring(d, ops, d)
  {
  }

  /** A kill during the first stage is a kill during both. */
  lemma {:induction false} KilledInFirst(d: Disk, a: seq<FileOp>, b: seq<FileOp>, d': Disk)
    requires KilledDuring(d, a, d')
    ensures KilledDuring(d, a + b, d')
    decreases |a|
  {
    if a == [] {
      KilledAtOnce(d, a + b);
    } else {
      assert (a + b)[1..] == a[1..] + b && (a + b)[0] == a[0];
      if d' != d && !Torn(d, a[0], d') {
        KilledInFirst(Exec(d, a[0]), a[1..], b, d');
      }
    }
  }

  lemma KilledDuringOne(d: Disk, op: FileOp, d': Disk)
    requires KilledDuring(d, [op], d')
    ensures d' == d || Torn(d, op, d') || d' == Exec(d, op)
  {
    assert [op][1..] == [];
  }

  /** A kill during an append leaves the old file or the old file and some of the new bytes. */
  lemma AppendKilledAt(d: Disk, f: TextFile, data: Bytes, d': Disk) returns (k: nat)
    requires KilledDuring(d, [Append(f, data)], d')
    ensures k <= |data|
    ensures d' == d || d' == WithText(d, f, Read(d, f) + data[..k])
    ensures d' == Exec(d, Append(f, data)) ==> k == |data|
    ensures d' == d && d' != Exec(d, Append(f, data)) ==> k == 0
  {
    KilledDuringOne(d, Append(f, data), d');
    if d' == Exec(d, Append(f, data)) {
      k := |data|;
      assert data[..k] == data;
    } else if d' == d {
      k := 0;
    } else {
      k :| k <= |data| && d' == WithText(d, f, Read(d, f) + data[..k]);
    }
  }

  lemma ExecOne(d: Disk, op: FileOp)
    ensures ExecAll(d, [op]) == Exec(d, op)
  {
    assert [op][1..] == [];
  }

  /** Writing a JSON file atomically: only its tmp file changes until the rename. */
  function AtomicWrite(t: DocFile, doc: Doc): seq<FileOp> {
    [WriteTmp(t, doc), CommitTmp(t)]
  }

  function WithDoc(d: Disk, t: DocFile, doc: Doc): Disk {
    Disk(d.text, d.docs[t := doc], d.tmps - {t})
  }

  lemma AtomicWriteDone(d: Disk, t: DocFile, doc: Doc)
    ensures ExecAll(d, AtomicWrite(t, doc)) == WithDoc(d, t, doc)
  {
    var ops := AtomicWrite(t, doc);
    assert ops[1..] == [CommitTmp(t)];
    ExecOne(Exec(d, ops[0]), CommitTmp(t));
    assert d.tmps[t := doc] - {t} == d.tmps - {t};
  }

  /** A kill during an atomic write leaves the old file or the new one, never a mixture. */
  lemma AtomicWriteKilled(d: Disk, t: DocFile, doc: Doc, d': Disk)
    requires KilledDuring(d, AtomicWrite(t, doc), d')
    ensures d'.text == d.text
    ensures d'.docs == d.docs || d' == WithDoc(d, t, doc)
  {
    var ops := AtomicWrite(t, doc);
    assert ops[1..] == [CommitTmp(t)];
    if d' != d && !Torn(d, ops[0], d') {
      KilledDuringOne(Exec(d, ops[0]), CommitTmp(t), d');
      assert d.tmps[t := doc] - {t} == d.tmps - {t};
    }
  }
}
