/** Reading the field output of lsof: one character names the field of a line, and a process begins with
    its `p` line. */
module Lsof {
  import opened Wrappers
  import opened Sequences
  import opened Strings

  /** LsofInfo, before the container is looked up. */
  datatype Info = Info(pid: string, command: string, uid: string, user: string, names: seq<string>)

  const SHARED_OBJECT := ".so"

  function Started(pid: string): Info {
    Info(pid, "", "", "", [])
  }

  /** The names that are kept, cut at the first space. */
  function Kept(name: string): seq<string> {
    if Contains(name, SHARED_OBJECT) then [Split(name, ' ')[0]] else []
  }

  /** The line changes the current process. */
  predicate NeedsProcess(line: string) {
    line != "" && (line[0] in {'c', 'u', 'L'} || (line[0] == 'n' && Contains(line[1..], SHARED_OBJECT)))
  }

  predicate StartsProcess(line: string) {
    line != "" && line[0] == 'p'
  }

  /** What a line adds to the current process. */
  function Amend(i: Info, line: string): Info {
    if line == "" then i
    else
      match line[0]
      case 'c' => i.(command := line[1..])
      case 'u' => i.(uid := line[1..])
      case 'L' => i.(user := line[1..])
      case 'n' => i.(names := i.names + Kept(line[1..]))
      case _ => i
  }

  /** The records after some lines; None when a line comes before the process it belongs to and the
      parser panics on index -1. */
  function Read(lines: seq<string>): Option<seq<Info>> {
    if lines == [] then Some([])
    else
      var last := lines[|lines| - 1];
      match Read(lines[..|lines| - 1])
      case None => None
      case Some(infos) =>
        if StartsProcess(last) then Some(infos + [Started(last[1..])])
        else if infos != [] then Some(infos[|infos| - 1 := Amend(infos[|infos| - 1], last)])
        else if NeedsProcess(last) then None
        else Some([])
  }

  /** The loop of lsofScan over the lines of the output. */
  method Parse(output: string) returns (r: Option<seq<Info>>)
    ensures r == Read(Split(output, '\n'))
  {
    var lines := Split(output, '\n');
    var curIndex := -1;
    var lsofs: seq<Info> := [];
    for k := 0 to |lines|
      invariant curIndex == |lsofs| - 1
      invariant Read(lines[..k]) == Some(lsofs)
    {
      var line := lines[k];
      assert lines[..k + 1] == lines[..k] + [line];
      ReadOneMore(lines[..k], line);
      LastAgain(lsofs);
      ghost var before := lsofs;
      if line != "" {
        match line[0] {
          case 'p' =>
            curIndex := curIndex + 1;
            lsofs := lsofs + [Started("")];
            lsofs := lsofs[curIndex := lsofs[curIndex].(pid := line[1..])];
            assert lsofs == before + [Started(line[1..])];
          case 'c' =>
            if curIndex < 0 {
              PanicStays(lines, k + 1);
              return None;
            }
            lsofs := lsofs[curIndex := lsofs[curIndex].(command := line[1..])];
          case 'u' =>
            if curIndex < 0 {
              PanicStays(lines, k + 1);
              return None;
            }
            lsofs := lsofs[curIndex := lsofs[curIndex].(uid := line[1..])];
          case 'L' =>
            if curIndex < 0 {
              PanicStays(lines, k + 1);
              return None;
            }
            lsofs := lsofs[curIndex := lsofs[curIndex].(user := line[1..])];
          case 'n' =>
            if Contains(line[1..], SHARED_OBJECT) {
              if curIndex < 0 {
                PanicStays(lines, k + 1);
                return None;
              }
              var names := lsofs[curIndex].names + [Split(line[1..], ' ')[0]];
              lsofs := lsofs[curIndex := lsofs[curIndex].(names := names)];
            }
          case _ =>
        }
      }
    }
    assert lines[..|lines|] == lines;
    r := Some(lsofs);
  }

  lemma LastAgain(infos: seq<Info>)
    ensures infos != [] ==> infos[|infos| - 1 := infos[|infos| - 1]] == infos
    ensures infos != [] ==> infos[|infos| - 1].names + [] == infos[|infos| - 1].names
  {
  }

  /** After a panic nothing more is read. */
  lemma {:induction false} PanicStays(lines: seq<string>, k: nat)
    requires k <= |lines| && Read(lines[..k]).None?
    ensures Read(lines).None?
    decreases |lines| - k
  {
    if k == |lines| {
      assert lines[..k] == lines;
    } else {
      assert lines[..k + 1][..k] == lines[..k];
      PanicStays(lines, k + 1);
    }
  }

  // ---- When it panics ----

  predicate SoAt(s: string, i: nat) {
    i + 2 < |s| && s[i] == '.' && s[i + 1] == 's' && s[i + 2] == 'o'
  }

  /** The three characters of ".so" stand one after the other, somewhere from `from` on. */
  predicate HasSo(s: string, from: nat) {
    exists i: nat :: from <= i < |s| && SoAt(s, i)
  }

  lemma SoHere(s: string, from: nat, i: nat)
    requires from <= i <= |s|
    ensures OccursAt(s[from..], SHARED_OBJECT, i - from) <==> SoAt(s, i)
  {
    if i + 3 <= |s| {
      assert s[from..][i - from..i - from + 3] == [s[i], s[i + 1], s[i + 2]];
    }
  }

  lemma HasSoIff(s: string, from: nat)
    requires from <= |s|
    ensures HasSo(s, from) <==> Contains(s[from..], SHARED_OBJECT)
  {
    if HasSo(s, from) {
      var i: nat :| from <= i < |s| && SoAt(s, i);
      SoHere(s, from, i);
    }
    if Contains(s[from..], SHARED_OBJECT) {
      var k :| OccursAt(s[from..], SHARED_OBJECT, k);
      SoHere(s, from, from + k);
    }
  }

  /** A line of a command, a user or a shared object, before every line of a process. */
  ghost predicate Orphan(lines: seq<string>, i: nat) {
    && i < |lines| && lines[i] != ""
    && (lines[i][0] in {'c', 'u', 'L'} || (lines[i][0] == 'n' && HasSo(lines[i], 1)))
    && forall j :: 0 <= j < i && lines[j] != "" ==> lines[j][0] != 'p'
  }

  /** The parser panics if and only if a line that needs a process comes before every `p` line. */
  lemma {:induction false} PanicsIffOrphan(lines: seq<string>)
    ensures Read(lines).None? <==> exists i: nat :: Orphan(lines, i)
    ensures Read(lines).Some? ==>
      (Read(lines).value == [] <==> forall j :: 0 <= j < |lines| && lines[j] != "" ==> lines[j][0] != 'p')
  {
    if lines != [] {
      var n := |lines| - 1;
      if lines[n] != "" {
        HasSoIff(lines[n], 1);
      }
      var front, last := lines[..n], lines[n];
      PanicsIffOrphan(front);
      if Read(front).None? {
        var i: nat :| Orphan(front, i);
        assert Orphan(lines, i);
      } else {
        assert forall i: nat :: i < n && Orphan(lines, i) ==> Orphan(front, i);
        assert Read(lines).None? ==> Orphan(lines, n);
        assert Orphan(lines, n) ==> Read(lines).None?;
      }
    }
  }

  // ---- Round trip ----

  /** A line of a process: its field and the text, or a line of another field. */
  datatype Field =
    | Command(text: string)
    | Uid(text: string)
    | User(text: string)
    | Name(text: string)
    | Other(line: string)

  datatype Process = Process(pid: string, fields: seq<Field>)

  predicate IsOther(line: string) {
    line == "" || line[0] !in {'p', 'c', 'u', 'L', 'n'}
  }

  predicate OneLine(s: string) {
    '\n' !in s
  }

  predicate FieldOk(f: Field) {
    if f.Other? then OneLine(f.line) && IsOther(f.line) else OneLine(f.text)
  }

  predicate ProcessOk(p: Process) {
    OneLine(p.pid) && forall f :: f in p.fields ==> FieldOk(f)
  }

  function FieldLine(f: Field): string {
    match f
    case Command(t) => "c" + t
    case Uid(t) => "u" + t
    case User(t) => "L" + t
    case Name(t) => "n" + t
    case Other(l) => l
  }

  function FieldLines(fields: seq<Field>): seq<string> {
    if fields == [] then [] else FieldLines(fields[..|fields| - 1]) + [FieldLine(fields[|fields| - 1])]
  }

  function Lines(processes: seq<Process>): seq<string> {
    if processes == [] then []
    else
      var last := processes[|processes| - 1];
      Lines(processes[..|processes| - 1]) + ["p" + last.pid] + FieldLines(last.fields)
  }

  /** Every line ends with a line feed. */
  function Print(lines: seq<string>): string {
    Join(lines + [""], ['\n'])
  }

  // What a process should be read as, field by field: the latest text of each, and all names that are kept.

  function LastCommand(fields: seq<Field>): string {
    if fields == [] then ""
    else
      match fields[|fields| - 1]
      case Command(t) => t
      case _ => LastCommand(fields[..|fields| - 1])
  }

  function LastUid(fields: seq<Field>): string {
    if fields == [] then ""
    else
      match fields[|fields| - 1]
      case Uid(t) => t
      case _ => LastUid(fields[..|fields| - 1])
  }

  function LastUser(fields: seq<Field>): string {
    if fields == [] then ""
    else
      match fields[|fields| - 1]
      case User(t) => t
      case _ => LastUser(fields[..|fields| - 1])
  }

  /** The text before the first space. */
  function UpToSpace(s: string): string {
    if s == "" || s[0] == ' ' then "" else [s[0]] + UpToSpace(s[1..])
  }

  /** The names with ".so" in them, in order, each as far as its first space. */
  function AllNames(fields: seq<Field>): seq<string> {
    if fields == [] then []
    else
      var f, before := fields[|fields| - 1], AllNames(fields[..|fields| - 1]);
      if f.Name? && HasSo(f.text, 0) then before + [UpToSpace(f.text)] else before
  }

  lemma {:induction false} SplitStart(s: string)
    ensures Split(s, ' ')[0] == UpToSpace(s)
  {
    if s != "" {
      SplitStart(s[1..]);
    }
  }

  lemma KeptIs(text: string)
    ensures Kept(text) == if HasSo(text, 0) then [UpToSpace(text)] else []
  {
    HasSoIff(text, 0);
    assert text[0..] == text;
    SplitStart(text);
  }

  function Recorded(p: Process): Info {
    Info(p.pid, LastCommand(p.fields), LastUid(p.fields), LastUser(p.fields), AllNames(p.fields))
  }

  function AllRecorded(processes: seq<Process>): (r: seq<Info>)
    ensures |r| == |processes| && forall i :: 0 <= i < |r| ==> r[i] == Recorded(processes[i])
  {
    seq(|processes|, i requires 0 <= i < |processes| => Recorded(processes[i]))
  }

  lemma ReadOneMore(lines: seq<string>, line: string)
    ensures Read(lines + [line]) ==
      match Read(lines)
      case None => None
      case Some(infos) =>
        if StartsProcess(line) then Some(infos + [Started(line[1..])])
        else if infos != [] then Some(infos[|infos| - 1 := Amend(infos[|infos| - 1], line)])
        else if NeedsProcess(line) then None
        else Some([])
  {
    assert (lines + [line])[..|lines|] == lines;
  }

  lemma LatestSnoc(fields: seq<Field>, f: Field)
    ensures LastCommand(fields + [f]) == if f.Command? then f.text else LastCommand(fields)
    ensures LastUid(fields + [f]) == if f.Uid? then f.text else LastUid(fields)
    ensures LastUser(fields + [f]) == if f.User? then f.text else LastUser(fields)
    ensures AllNames(fields + [f]) == AllNames(fields) + if f.Name? then Kept(f.text) else []
  {
    assert (fields + [f])[..|fields|] == fields;
    if f.Name? {
      KeptIs(f.text);
    }
  }

  lemma AmendLetter(i: Info, letter: char, text: string)
    ensures Amend(i, [letter] + text) ==
      match letter
      case 'c' => i.(command := text)
      case 'u' => i.(uid := text)
      case 'L' => i.(user := text)
      case 'n' => i.(names := i.names + Kept(text))
      case _ => i
    ensures StartsProcess([letter] + text) <==> letter == 'p'
  {
    assert ([letter] + text)[1..] == text;
  }

  lemma AmendField(p: Process, f: Field)
    requires FieldOk(f)
    ensures Amend(Recorded(p), FieldLine(f)) == Recorded(p.(fields := p.fields + [f]))
    ensures !StartsProcess(FieldLine(f))
  {
    LatestSnoc(p.fields, f);
    match f
    case Command(t) => AmendLetter(Recorded(p), 'c', t);
    case Uid(t) => AmendLetter(Recorded(p), 'u', t);
    case User(t) => AmendLetter(Recorded(p), 'L', t);
    case Name(t) => AmendLetter(Recorded(p), 'n', t);
    case Other(l) => assert AllNames(p.fields) + [] == AllNames(p.fields);
  }

  lemma AmendLast(infos: seq<Info>, i: Info, line: string)
    ensures var more := infos + [i]; more[|more| - 1 := Amend(more[|more| - 1], line)] == infos + [Amend(i, line)]
  {
  }

  lemma {:induction false} FieldsRead(lines: seq<string>, infos: seq<Info>, p: Process, k: nat)
    requires Read(lines) == Some(infos + [Started(p.pid)])
    requires ProcessOk(p) && k <= |p.fields|
    ensures Read(lines + FieldLines(p.fields[..k])) == Some(infos + [Recorded(p.(fields := p.fields[..k]))])
    decreases k
  {
    if k == 0 {
      assert lines + [] == lines;
    } else {
      var f := p.fields[k - 1];
      var q := p.(fields := p.fields[..k - 1]);
      FieldsRead(lines, infos, p, k - 1);
      assert p.fields[..k] == p.fields[..k - 1] + [f] && p.fields[..k][..k - 1] == p.fields[..k - 1];
      assert lines + FieldLines(p.fields[..k]) == (lines + FieldLines(p.fields[..k - 1])) + [FieldLine(f)];
      ReadOneMore(lines + FieldLines(p.fields[..k - 1]), FieldLine(f));
      assert f in p.fields;
      AmendField(q, f);
      AmendLast(infos, Recorded(q), FieldLine(f));
    }
  }

  lemma {:induction false} LinesRead(preamble: seq<string>, processes: seq<Process>)
    requires forall l :: l in preamble ==> IsOther(l)
    requires forall p :: p in processes ==> ProcessOk(p)
    ensures Read(preamble + Lines(processes)) == Some(AllRecorded(processes))
    decreases |processes|
  {
    if processes == [] {
      assert preamble + [] == preamble;
      OthersRead(preamble);
    } else {
      var n := |processes| - 1;
      var front, p := processes[..n], processes[n];
      assert p in processes;
      LinesRead(preamble, front);
      ProcessRead(preamble + Lines(front), AllRecorded(front), p);
      Associate4(preamble, Lines(front), ["p" + p.pid], FieldLines(p.fields));
      RecordedSnoc(processes);
    }
  }

  lemma RecordedSnoc(processes: seq<Process>)
    requires processes != []
    ensures AllRecorded(processes) == AllRecorded(processes[..|processes| - 1]) + [Recorded(processes[|processes| - 1])]
  {
  }

  lemma ProcessRead(before: seq<string>, infos: seq<Info>, p: Process)
    requires Read(before) == Some(infos) && ProcessOk(p)
    ensures Read(before + ["p" + p.pid] + FieldLines(p.fields)) == Some(infos + [Recorded(p)])
  {
    ReadOneMore(before, "p" + p.pid);
    assert ("p" + p.pid)[1..] == p.pid;
    FieldsRead(before + ["p" + p.pid], infos, p, |p.fields|);
    assert p.fields[..|p.fields|] == p.fields;
  }

  lemma {:induction false} OthersRead(lines: seq<string>)
    requires forall l :: l in lines ==> IsOther(l)
    ensures Read(lines) == Some([])
  {
    if lines != [] {
      assert lines[|lines| - 1] in lines;
      OthersRead(lines[..|lines| - 1]);
    }
  }

  lemma {:induction false} FieldLinesPlain(fields: seq<Field>)
    requires forall f :: f in fields ==> FieldOk(f)
    ensures forall l :: l in FieldLines(fields) ==> OneLine(l)
  {
    if fields != [] {
      FieldLinesPlain(fields[..|fields| - 1]);
      assert fields[|fields| - 1] in fields;
    }
  }

  lemma {:induction false} LinesPlain(processes: seq<Process>)
    requires forall p :: p in processes ==> ProcessOk(p)
    ensures forall l :: l in Lines(processes) ==> OneLine(l)
  {
    if processes != [] {
      assert processes[|processes| - 1] in processes;
      LinesPlain(processes[..|processes| - 1]);
      FieldLinesPlain(processes[|processes| - 1].fields);
    }
  }

  /** What lsof prints of any processes is read back as these processes in order, whatever lines of other
      fields stand in between or in front. */
  lemma PrintedIsReadBack(preamble: seq<string>, processes: seq<Process>)
    requires forall l :: l in preamble ==> IsOther(l) && OneLine(l)
    requires forall p :: p in processes ==> ProcessOk(p)
    ensures Read(Split(Print(preamble + Lines(processes)), '\n')) == Some(AllRecorded(processes))
  {
    var lines := preamble + Lines(processes);
    LinesPlain(processes);
    SplitJoin(lines + [""], '\n');
    LinesRead(preamble, processes);
    ReadOneMore(lines, "");
    var infos := AllRecorded(processes);
    assert infos != [] ==> infos[|infos| - 1 := infos[|infos| - 1]] == infos;
  }

  /** The test for ".so" comes before the cut: a kept name need not contain it. */
  lemma KeptMayLoseSuffix(path: string, rest: string)
    requires ' ' !in path && Contains(rest, SHARED_OBJECT)
    ensures Kept(path + " " + rest) == [path]
  {
    var name := path + " " + rest;
    var i :| OccursAt(rest, SHARED_OBJECT, i);
    assert name[|path| + 1..] == rest;
    assert OccursAt(name, SHARED_OBJECT, |path| + 1 + i);
    SplitHead(path, rest, ' ');
  }
}
