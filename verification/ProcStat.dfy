/**
 The /proc/[pid]/stat line: a process name in parentheses, which may itself
 contain parentheses and blanks, and blank-separated fields around it.
 */
module ProcStat {
  import opened Text
  import opened Wrappers

  // ----- taking the name out

  function LastIndex(c: char, s: string): (i: int)
    ensures -1 <= i < |s| && (i >= 0 ==> s[i] == c)
    ensures forall k :: i < k < |s| ==> s[k] != c
  {
    if s == [] then -1 else if s[|s| - 1] == c then |s| - 1 else LastIndex(c, s[..|s| - 1])
  }

  datatype StatError = NoComm | TooFewFields

  datatype Interests = Interests(
    state: string, ppid: string, pgrp: string, tty: string, priority: string, nice: string, processor: string)

  datatype Stat = Stat(name: string, fields: seq<string>)

  // The name and the fields after it.
  function SplitStat(data: string): Option<Stat> {
    var l, r := Index('(', data), LastIndex(')', data);
    if l == |data| || r < 0 || l >= r || r + 2 >= |data| then None
    else Some(Stat(data[l + 1..r], Fields(data[r + 2..])))
  }

  function Select(fields: seq<string>): Interests
    requires |fields| > 36
  {
    Interests(fields[0], fields[1], fields[2], fields[4], fields[15], fields[16], fields[36])
  }

  class ProcState {
    var name: string
    var interests: Option<Interests>

    constructor ()
      ensures name == "" && interests == None
    {
      name, interests := "", None;
    }

    /** The name is set as soon as it is found, even when the fields then turn out to be too few. */
    method Get(data: string) returns (error: Option<StatError>)
      modifies this
      ensures error == (if SplitStat(data).None? then Some(NoComm)
                        else if |SplitStat(data).value.fields| <= 36 then Some(TooFewFields) else None)
      ensures name == if SplitStat(data).None? then old(name) else SplitStat(data).value.name
      ensures interests == if error.Some? then old(interests) else Some(Select(SplitStat(data).value.fields))
    {
      var l := Index('(', data);
      var r := LastIndex(')', data);
      if l == |data| || r < 0 || l >= r || r + 2 >= |data| {
        return Some(NoComm);
      }
      name := data[l + 1..r];
      var fields := Fields(data[r + 2..]);
      if |fields| <= 36 {
        return Some(TooFewFields);
      }
      interests := Some(Select(fields));
      return None;
    }
  }

  // ----- lines as the kernel writes them

  function Line(pid: string, name: string, tail: string): string {
    pid + " (" + name + ") " + tail
  }

  lemma FirstParen(pid: string, rest: string)
    requires '(' !in pid
    ensures Index('(', pid + " (" + rest) == |pid| + 1
  {
    assert pid + " (" + rest == (pid + " ") + ['('] + rest;
    assert '(' !in pid + " ";
    IndexIs('(', pid + " ", rest);
  }

  lemma {:induction false} LastIndexIs(c: char, a: string, b: string)
    requires c !in b
    ensures LastIndex(c, a + [c] + b) == |a|
    decreases |b|
  {
    var s := a + [c] + b;
    if b == [] {
      assert s[|s| - 1] == c;
    } else {
      assert s[|s| - 1] == b[|b| - 1] && s[..|s| - 1] == a + [c] + b[..|b| - 1];
      LastIndexIs(c, a, b[..|b| - 1]);
    }
  }

  lemma LastParen(head: string, tail: string)
    requires ')' !in tail
    ensures LastIndex(')', head + ") " + tail) == |head|
  {
    assert head + ") " + tail == head + [')'] + ([' '] + tail);
    LastIndexIs(')', head, [' '] + tail);
  }

  /** Any name, parentheses and blanks included, is recovered together with
      the fields after it, if those contain no closing parenthesis. */
  lemma NameRecovered(pid: string, name: string, tail: string)
    requires '(' !in pid && ')' !in tail && tail != ""
    ensures SplitStat(Line(pid, name, tail)) == Some(Stat(name, Fields(tail)))
  {
    var data := Line(pid, name, tail);
    assert data == pid + " (" + (name + ") " + tail);
    FirstParen(pid, name + ") " + tail);
    var head := pid + " (" + name;
    assert data == head + ") " + tail;
    LastParen(head, tail);
    assert data[|pid| + 2..|head|] == name && data[|head| + 2..] == tail;
  }

  /** From a line with any name and at least 37 fields after it, Get recovers
      the name and the selected fields. */
  method StateOfLine(pid: string, name: string, tail: string) returns (state: ProcState, error: Option<StatError>)
    requires '(' !in pid && ')' !in tail && |Fields(tail)| >= 37
    ensures fresh(state) && error.None? && state.name == name && state.interests == Some(Select(Fields(tail)))
  {
    NameRecovered(pid, name, tail);
    state := new ProcState();
    error := state.Get(Line(pid, name, tail));
  }

  // ----- a line written from a record

  /** The fields after the name in the order of proc(5): state to starttime,
      the sixteen from vsize to exit_signal, the processor, and what newer
      kernels add. */
  datatype Record = Record(
    state: string, ppid: string, pgrp: string, session: string, tty: string, tpgid: string, flags: string,
    minflt: string, cminflt: string, majflt: string, cmajflt: string,
    utime: string, stime: string, cutime: string, cstime: string,
    priority: string, nice: string, threads: string, itrealvalue: string, starttime: string,
    memory: seq<string>, processor: string, newer: seq<string>)

  function FieldsOfRecord(r: Record): seq<string> {
    [r.state, r.ppid, r.pgrp, r.session, r.tty, r.tpgid, r.flags, r.minflt, r.cminflt, r.majflt, r.cmajflt,
     r.utime, r.stime, r.cutime, r.cstime, r.priority, r.nice, r.threads, r.itrealvalue, r.starttime]
    + r.memory + [r.processor] + r.newer
  }

  ghost predicate ProperRecord(r: Record) {
    && |r.memory| == 16 && Words(IsSpace, FieldsOfRecord(r))
    && forall i :: 0 <= i < |FieldsOfRecord(r)| ==> ')' !in FieldsOfRecord(r)[i]
  }

  function RecordLine(pid: string, name: string, r: Record): string {
    Line(pid, name, Join(' ', FieldsOfRecord(r)))
  }

  lemma {:induction false} NoParenInJoin(words: seq<string>)
    requires forall i :: 0 <= i < |words| ==> ')' !in words[i]
    ensures ')' !in Join(' ', words)
  {
    if |words| > 1 {
      NoParenInJoin(words[1..]);
    }
  }

  /** From a line written from a record, with any name, Get recovers the name
      and seven fields of the record. */
  method StateOfRecord(pid: string, name: string, r: Record) returns (state: ProcState, error: Option<StatError>)
    requires '(' !in pid && ProperRecord(r)
    ensures fresh(state) && error.None? && state.name == name
    ensures state.interests == Some(Interests(
              state := r.state, ppid := r.ppid, pgrp := r.pgrp, tty := r.tty,
              priority := r.priority, nice := r.nice, processor := r.processor))
  {
    var fields := FieldsOfRecord(r);
    FieldsOfJoin(IsSpace, ' ', fields);
    NoParenInJoin(fields);
    state, error := StateOfLine(pid, name, Join(' ', fields));
  }

  /** A line without an opening or a closing parenthesis, or with nothing but a
      blank after the last closing one, has no name. */
  lemma NoName(data: string, pid: string, name: string)
    ensures '(' !in data || ')' !in data ==> SplitStat(data) == None
    ensures '(' !in pid ==> SplitStat(pid + " (" + name + ")") == None && SplitStat(Line(pid, name, "")) == None
  {
    if '(' !in pid {
      var head := pid + " (" + name;
      FirstParen(pid, name + ")");
      FirstParen(pid, name + ") ");
      LastIndexIs(')', head, "");
      LastIndexIs(')', head, " ");
      assert head + [')'] + "" == pid + " (" + name + ")" == pid + " (" + (name + ")");
      assert head + [')'] + " " == Line(pid, name, "") == pid + " (" + (name + ") ");
    }
  }

  // ----- the same fields counted from the start of the line

  ghost predicate NoBlank(name: string) {
    NoneOf(IsSpace, name)
  }

  lemma LineShape(pid: string, name: string, tail: string)
    ensures Line(pid, name, tail) == pid + [' '] + ("(" + name + ")" + ([' '] + tail))
  {
  }

  /** Counted from the start of the line, the fields of the name push the later ones back. */
  lemma WholeLineFields(pid: string, name: string, tail: string)
    requires pid != "" && NoneOf(IsSpace, pid)
    ensures Fields(Line(pid, name, tail)) == [pid] + (Fields("(" + name + ")") + Fields(tail))
  {
    var comm := "(" + name + ")";
    LineShape(pid, name, tail);
    JoinStep(IsSpace, ' ', pid, comm + ([' '] + tail));
    FieldsConcat(IsSpace, comm, [' '] + tail);
    FieldsAfterGap(IsSpace, [' '], tail);
  }

  lemma SomethingLeft(s: string)
    requires s != [] && (!IsSpace(s[0]) || !IsSpace(s[|s| - 1]))
    ensures Fields(s) != []
  {
    var gap := SkippedGap(IsSpace, s);
    var t := SkipSep(IsSpace, s);
    assert t == [] ==> s == gap;
  }

  /** The name in parentheses is one field exactly when it contains no blank. */
  lemma CommIsOneField(name: string)
    ensures |Fields("(" + name + ")")| == 1 <==> NoBlank(name)
    ensures |Fields("(" + name + ")")| >= 1
  {
    var comm := "(" + name + ")";
    SomethingLeft(comm);
    if NoBlank(name) {
      FieldsOfWord(IsSpace, comm);
    } else {
      var i :| 0 <= i < |name| && IsSpace(name[i]);
      var a, b := comm[..i + 1], comm[i + 1..];
      assert comm == a + b && b[0] == name[i] && a[0] == '(' && b[|b| - 1] == ')';
      FieldsConcat(IsSpace, a, b);
      SomethingLeft(a);
      SomethingLeft(b);
    }
  }

  // The times of a process, by position from the start of the line and from after the name.
  ghost predicate TimesAgree(pid: string, name: string, tail: string)
  {
    var whole, after := Fields(Line(pid, name, tail)), Fields(tail);
    |after| >= 20 ==> |whole| >= 22 && whole[13] == after[11] && whole[14] == after[12] && whole[21] == after[19]
  }

  function Repeat(w: string, n: nat): seq<string> {
    seq(n, _ => w)
  }

  // A tail whose field 11 is w and whose other fields are all "0".
  function Marked(w: string): seq<string> {
    Repeat("0", 11) + [w] + Repeat("0", 10)
  }

  lemma MarkedTail(w: string)
    requires w != "" && NoneOf(IsSpace, w)
    ensures Fields(Join(' ', Marked(w))) == Marked(w)
  {
    FieldsOfJoin(IsSpace, ' ', Marked(w));
  }

  lemma BlankBreaksTimes(pid: string, name: string)
    requires pid != "" && NoneOf(IsSpace, pid) && !NoBlank(name)
    ensures exists tail :: !TimesAgree(pid, name, tail)
  {
    var comm := Fields("(" + name + ")");
    CommIsOneField(name);
    // A mark that is not the field of the name that could stand in its place.
    var w := if |comm| > 12 && comm[12] == "1" then "2" else "1";
    MarkedTail(w);
    var tail := Join(' ', Marked(w));
    WholeLineFields(pid, name, tail);
    MarkMissed(pid, comm, w);
    assert !TimesAgree(pid, name, tail);
  }

  // Field 13 of a line whose name gives more than one field is not the mark.
  lemma MarkMissed(pid: string, comm: seq<string>, w: string)
    requires |comm| > 1 && w != "0" && (|comm| > 12 ==> comm[12] != w)
    ensures var whole := [pid] + comm + Marked(w); |whole| >= 14 && whole[13] != Marked(w)[11]
  {
    var whole := [pid] + comm + Marked(w);
    assert whole[13] == if |comm| > 12 then comm[12] else Marked(w)[12 - |comm|];
  }

  /** The times read by position from the start of the line are those after
      the name, on every line, if and only if the name contains no blank. */
  lemma TimesAgreeExactly(pid: string, name: string)
    requires pid != "" && NoneOf(IsSpace, pid)
    ensures (forall tail :: TimesAgree(pid, name, tail)) <==> NoBlank(name)
  {
    if NoBlank(name) {
      CommIsOneField(name);
      forall tail ensures TimesAgree(pid, name, tail) {
        WholeLineFields(pid, name, tail);
      }
    } else {
      BlankBreaksTimes(pid, name);
    }
  }

  /** Of a line written from a record, with no blank in the name, the fields 13,
      14 and 21 of the line are the times of the record. */
  lemma TimesOfRecord(pid: string, name: string, r: Record)
    requires pid != "" && NoneOf(IsSpace, pid) && NoBlank(name) && ProperRecord(r)
    ensures var whole := Fields(RecordLine(pid, name, r));
            |whole| > 21 && whole[13] == r.utime && whole[14] == r.stime && whole[21] == r.starttime
  {
    var fields := FieldsOfRecord(r);
    RecordTimes(r);
    FieldsOfJoin(IsSpace, ' ', fields);
    WholeLineFields(pid, name, Join(' ', fields));
    CommIsOneField(name);
    ShiftedByTwo([pid], Fields("(" + name + ")"), fields);
  }

  lemma RecordTimes(r: Record)
    ensures var f := FieldsOfRecord(r); |f| >= 20 && f[11] == r.utime && f[12] == r.stime && f[19] == r.starttime
  {
  }

  lemma ShiftedByTwo(a: seq<string>, b: seq<string>, fields: seq<string>)
    requires |a| == 1 && |b| == 1 && |fields| >= 20
    ensures var whole := a + (b + fields);
            |whole| > 21 && whole[13] == fields[11] && whole[14] == fields[12] && whole[21] == fields[19]
  {
  }
}
