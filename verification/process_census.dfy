/** The process table (hello1.cpp): parse the enumeration output into
    records, then order them by the selected column. The enumeration command
    is a parameter: its output lines, or `None` when it could not be started. */
module ProcessCensus {
  import opened Wrappers
  import Tokens
  import Numerals
  import Lexicographic
  import Sequences

  datatype ProcessInfo = ProcessInfo(pid: int, name: string, cpu: real, mem: real)

  /** The four columns a table can be ordered by, in header order. */
  datatype SortType = Pid | Cpu | Mem | Name

  /** The extraction `pid cpu mem name` over a line's tokens: a 32-bit
      integer, two decimals and one token; tokens after the fourth are
      ignored. */
  function ParseFields(ws: seq<string>): (r: Option<ProcessInfo>)
    requires Tokens.AllTokens(ws)
    ensures r.Some? ==> Tokens.IsToken(r.value.name)
    ensures r.Some? ==> Numerals.MinInt32 <= r.value.pid <= Numerals.MaxInt32
    ensures |ws| < 4 ==> r.None?
    ensures r.Some? <==>
      && |ws| >= 4
      && Numerals.ParseInt32(ws[0]).Some?
      && Numerals.ParseDecimal(ws[1]).Some?
      && Numerals.ParseDecimal(ws[2]).Some?
    ensures r.Some? ==>
      r.value == ProcessInfo(Numerals.ParseInt32(ws[0]).value, ws[3],
                             Numerals.ParseDecimal(ws[1]).value, Numerals.ParseDecimal(ws[2]).value)
  {
    if |ws| < 4 then None
    else
      var pid := Numerals.ParseInt32(ws[0]);
      var cpu := Numerals.ParseDecimal(ws[1]);
      var mem := Numerals.ParseDecimal(ws[2]);
      if pid.Some? && cpu.Some? && mem.Some? then
        Some(ProcessInfo(pid.value, ws[3], cpu.value, mem.value))
      else
        None
  }

  /** One output line as `iss >> pid >> cpu >> mem >> name` reads it. */
  function ParseLine(line: string): Option<ProcessInfo> {
    ParseFields(Tokens.Words(line))
  }

  /** A table line as the enumeration command prints one: percentages with
      one decimal, given here in tenths. */
  function FormatLine(pid: int, cpuTenths: nat, memTenths: nat, name: string): string {
    Tokens.Join(FormatFields(pid, cpuTenths, memTenths, name))
  }

  /** The records of the lines that extract, in input order; every other
      line is dropped. */
  function Keep(lines: seq<string>): (ps: seq<ProcessInfo>)
    ensures |ps| <= |lines|
  {
    Sequences.FilterMap(ParseLine, lines)
  }

  /** `getProcesses`: nothing when the command could not be started;
      otherwise the first line is a header and the rest go through `Keep`. */
  function GetProcesses(output: Option<seq<string>>): (ps: seq<ProcessInfo>)
    ensures output.None? ==> ps == []
    ensures output.Some? ==>
      forall p :: p in ps ==>
        exists i :: 1 <= i < |output.value| && ParseLine(output.value[i]) == Some(p)
  {
    match output
    case None => []
    case Some(lines) =>
      if |lines| == 0 then []
      else
        KeepSound(lines, 1);
        Keep(lines[1..])
  }

  /** The `while (fgets(...))` loop: one line at a time, appending each
      record that extracts. */
  method ReadProcesses(output: Option<seq<string>>) returns (ps: seq<ProcessInfo>)
    ensures ps == GetProcesses(output)
  {
    ps := [];
    if output.None? || |output.value| == 0 {
      return;
    }
    var lines := output.value;
    var i := 1;
    while i < |lines|
      invariant 1 <= i <= |lines|
      invariant ps == Keep(lines[1..i])
    {
      var r := ParseLine(lines[i]);
      KeepStep(lines, i, r);
      if r.Some? {
        ps := ps + [r.value];
      }
      i := i + 1;
    }
    assert lines[1..i] == lines[1..];
  }

  lemma KeepStep(lines: seq<string>, i: nat, r: Option<ProcessInfo>)
    requires 1 <= i < |lines| && r == ParseLine(lines[i])
    ensures r.Some? ==> Keep(lines[1..i + 1]) == Keep(lines[1..i]) + [r.value]
    ensures r.None? ==> Keep(lines[1..i + 1]) == Keep(lines[1..i])
  {
    Sequences.FilterMapStep(ParseLine, lines, 1, i);
  }

  /** Keeping is done line by line: records of earlier lines come first. */
  lemma KeepAppend(a: seq<string>, b: seq<string>)
    ensures Keep(a + b) == Keep(a) + Keep(b)
  {
    Sequences.FilterMapAppend(ParseLine, a, b);
  }

  /** Every kept record is what some line at or after `lo` extracts to. */
  lemma KeepSound(lines: seq<string>, lo: nat)
    requires lo <= |lines|
    ensures forall p :: p in Keep(lines[lo..]) ==>
      exists i :: lo <= i < |lines| && ParseLine(lines[i]) == Some(p)
  {
    Sequences.FilterMapSound(ParseLine, lines, lo);
  }

  /** Every line that extracts contributes its record. */
  lemma KeepComplete(lines: seq<string>, i: nat)
    requires i < |lines| && ParseLine(lines[i]).Some?
    ensures ParseLine(lines[i]).value in Keep(lines)
  {
    Sequences.FilterMapComplete(ParseLine, lines, i);
  }

  /** A line that does not extract is dropped without disturbing the records
      around it or their order. */
  lemma MalformedLineDropped(before: seq<string>, line: string, after: seq<string>)
    requires ParseLine(line).None?
    ensures Keep(before + [line] + after) == Keep(before) + Keep(after)
  {
    Sequences.FilterMapAppend(ParseLine, before + [line], after);
    Sequences.FilterMapAppend(ParseLine, before, [line]);
    Sequences.FilterMapSingle(ParseLine, line);
  }

  /** A line whose pid, cpu or mem token holds a character no numeral
      contains (a letter, say) is dropped. */
  lemma NonNumericFieldDropped(ws: seq<string>, f: nat, i: nat)
    requires Tokens.AllTokens(ws)
    requires f < 3 && f < |ws| && i < |ws[f]| && Numerals.Foreign(ws[f][i])
    ensures ParseFields(ws).None?
  {
    if f == 0 {
      Numerals.Int32Rejects(ws[0], i);
    } else {
      Numerals.DecimalRejects(ws[f], i);
    }
  }

  /** The newline a line reader keeps at the end of a line changes nothing. */
  lemma NewlineIgnored(line: string)
    ensures ParseLine(line + "\n") == ParseLine(line)
  {
    Tokens.TrailingSpaceIgnored(line, '\n');
  }

  /** Whatever the first line says, it never becomes a record. */
  lemma HeaderIgnored(header: string, other: string, rest: seq<string>)
    ensures GetProcesses(Some([header] + rest)) == GetProcesses(Some([other] + rest))
  {
    assert ([header] + rest)[1..] == rest;
    assert ([other] + rest)[1..] == rest;
  }

  /** A printed table line extracts to the record it was printed from. */
  lemma LineRoundTrip(pid: int, cpuTenths: nat, memTenths: nat, name: string)
    requires Numerals.MinInt32 <= pid <= Numerals.MaxInt32
    requires Tokens.IsToken(name)
    ensures ParseLine(FormatLine(pid, cpuTenths, memTenths, name))
         == Some(ProcessInfo(pid, name, cpuTenths as real / 10.0, memTenths as real / 10.0))
    ensures ParseLine(FormatLine(pid, cpuTenths, memTenths, name) + "\n")
         == Some(ProcessInfo(pid, name, cpuTenths as real / 10.0, memTenths as real / 10.0))
  {
    var ws := FormatFields(pid, cpuTenths, memTenths, name);
    WordsOfFormatLine(pid, cpuTenths, memTenths, name);
    FieldsRoundTrip(pid, cpuTenths, memTenths, name);
    NewlineIgnored(FormatLine(pid, cpuTenths, memTenths, name));
  }

  function FormatFields(pid: int, cpuTenths: nat, memTenths: nat, name: string): seq<string> {
    [Numerals.FormatInt(pid), Numerals.FormatTenths(cpuTenths), Numerals.FormatTenths(memTenths), name]
  }

  lemma FormatFieldsAreTokens(pid: int, cpuTenths: nat, memTenths: nat, name: string)
    requires Tokens.IsToken(name)
    ensures Tokens.AllTokens(FormatFields(pid, cpuTenths, memTenths, name))
  {
    Numerals.IntIsToken(pid);
    Numerals.TenthsIsToken(cpuTenths);
    Numerals.TenthsIsToken(memTenths);
  }

  lemma WordsOfFormatLine(pid: int, cpuTenths: nat, memTenths: nat, name: string)
    requires Tokens.IsToken(name)
    ensures Tokens.Words(FormatLine(pid, cpuTenths, memTenths, name))
         == FormatFields(pid, cpuTenths, memTenths, name)
  {
    FormatFieldsAreTokens(pid, cpuTenths, memTenths, name);
    Tokens.WordsJoin(FormatFields(pid, cpuTenths, memTenths, name));
  }

  lemma FieldsRoundTrip(pid: int, cpuTenths: nat, memTenths: nat, name: string)
    requires Numerals.MinInt32 <= pid <= Numerals.MaxInt32
    requires Tokens.IsToken(name)
    ensures Tokens.AllTokens(FormatFields(pid, cpuTenths, memTenths, name))
    ensures ParseFields(FormatFields(pid, cpuTenths, memTenths, name))
         == Some(ProcessInfo(pid, name, cpuTenths as real / 10.0, memTenths as real / 10.0))
  {
    var ws := FormatFields(pid, cpuTenths, memTenths, name);
    FormatFieldsAreTokens(pid, cpuTenths, memTenths, name);
    Numerals.Int32RoundTrip(pid);
    Numerals.DecimalRoundTrip(cpuTenths);
    Numerals.DecimalRoundTrip(memTenths);
  }

  /** Tokens after the name do not change what a line extracts to. */
  lemma TrailingTokensIgnored(ws: seq<string>, extra: seq<string>)
    requires |ws| == 4 && Tokens.AllTokens(ws) && Tokens.AllTokens(extra)
    ensures ParseLine(Tokens.Join(ws + extra)) == ParseLine(Tokens.Join(ws))
  {
    Tokens.WordsJoin(ws);
    Tokens.WordsJoin(ws + extra);
    assert (ws + extra)[..4] == ws;
  }

  /** The comparison handed to `std::sort` for each column. */
  predicate Less(key: SortType, a: ProcessInfo, b: ProcessInfo) {
    match key
    case Pid => a.pid < b.pid
    case Cpu => a.cpu > b.cpu
    case Mem => a.mem > b.mem
    case Name => Lexicographic.Less(a.name, b.name)
  }

  /** What `std::sort` promises: no record is strictly before an earlier one. */
  predicate SortedBy(key: SortType, s: seq<ProcessInfo>) {
    forall i, j :: 0 <= i < j < |s| ==> !Less(key, s[j], s[i])
  }

  /** The order each column promises, stated directly on its field. */
  predicate InOrder(key: SortType, a: ProcessInfo, b: ProcessInfo) {
    match key
    case Pid => a.pid <= b.pid
    case Cpu => a.cpu >= b.cpu
    case Mem => a.mem >= b.mem
    case Name => a.name == b.name || Lexicographic.Less(a.name, b.name)
  }

  lemma LessAsymmetric(key: SortType, a: ProcessInfo, b: ProcessInfo)
    requires Less(key, a, b)
    ensures !Less(key, b, a)
  {
    if key == Name {
      Lexicographic.Asymmetric(a.name, b.name);
    }
  }

  lemma NotLessTransitive(key: SortType, a: ProcessInfo, b: ProcessInfo, c: ProcessInfo)
    requires !Less(key, b, a) && !Less(key, c, b)
    ensures !Less(key, c, a)
  {
    if key == Name {
      Lexicographic.NotLessTransitive(a.name, b.name, c.name);
    }
  }

  /** Pid ascending, CPU descending, memory descending, name ascending:
      the comparator's promise is exactly the column's order. */
  lemma SortedByMeansInOrder(key: SortType, s: seq<ProcessInfo>)
    ensures SortedBy(key, s) <==> forall i, j :: 0 <= i < j < |s| ==> InOrder(key, s[i], s[j])
  {
    if key == Name {
      forall i, j | 0 <= i < j < |s|
        ensures !Less(key, s[j], s[i]) <==> InOrder(key, s[i], s[j])
      {
        if s[i].name != s[j].name {
          Lexicographic.Total(s[i].name, s[j].name);
          if Lexicographic.Less(s[i].name, s[j].name) {
            Lexicographic.Asymmetric(s[i].name, s[j].name);
          }
        } else {
          Lexicographic.Irreflexive(s[i].name);
        }
      }
    }
  }

  /** Places `x` before the first element it does not come after. */
  function Insert(key: SortType, x: ProcessInfo, s: seq<ProcessInfo>): (r: seq<ProcessInfo>)
    ensures multiset(r) == multiset(s) + multiset{x}
    decreases |s|
  {
    if s == [] || !Less(key, s[0], x) then [x] + s
    else
      assert s == [s[0]] + s[1..];
      [s[0]] + Insert(key, x, s[1..])
  }

  /** No element of `s` is strictly before `y`. */
  predicate NoneBefore(key: SortType, s: seq<ProcessInfo>, y: ProcessInfo) {
    forall j :: 0 <= j < |s| ==> !Less(key, s[j], y)
  }

  lemma SortedCons(key: SortType, y: ProcessInfo, s: seq<ProcessInfo>)
    requires SortedBy(key, s) && NoneBefore(key, s, y)
    ensures SortedBy(key, [y] + s)
  {
    var r := [y] + s;
    forall i, j | 0 <= i < j < |r|
      ensures !Less(key, r[j], r[i])
    {
      if i > 0 {
        assert r[i] == s[i - 1] && r[j] == s[j - 1];
      }
    }
  }

  lemma {:induction false} InsertNoneBefore(key: SortType, x: ProcessInfo, s: seq<ProcessInfo>, y: ProcessInfo)
    requires NoneBefore(key, s, y) && !Less(key, x, y)
    ensures NoneBefore(key, Insert(key, x, s), y)
    decreases |s|
  {
    if s != [] && Less(key, s[0], x) {
      InsertNoneBefore(key, x, s[1..], y);
    }
  }

  lemma SortedHeadNoneBefore(key: SortType, s: seq<ProcessInfo>)
    requires SortedBy(key, s) && s != []
    ensures SortedBy(key, s[1..]) && NoneBefore(key, s[1..], s[0])
  {
    forall j | 0 <= j < |s| - 1
      ensures !Less(key, s[1..][j], s[0])
    {
      assert s[1..][j] == s[j + 1];
    }
  }

  lemma {:induction false} InsertKeepsSorted(key: SortType, x: ProcessInfo, s: seq<ProcessInfo>)
    requires SortedBy(key, s)
    ensures SortedBy(key, Insert(key, x, s))
    decreases |s|
  {
    if s == [] {
    } else if !Less(key, s[0], x) {
      forall j | 0 <= j < |s|
        ensures !Less(key, s[j], x)
      {
        if j > 0 {
          NotLessTransitive(key, x, s[0], s[j]);
        }
      }
      SortedCons(key, x, s);
    } else {
      SortedHeadNoneBefore(key, s);
      InsertKeepsSorted(key, x, s[1..]);
      LessAsymmetric(key, s[0], x);
      InsertNoneBefore(key, x, s[1..], s[0]);
      SortedCons(key, s[0], Insert(key, x, s[1..]));
    }
  }

  /** Insertion sort under the column's comparison. */
  function SortBy(key: SortType, s: seq<ProcessInfo>): (r: seq<ProcessInfo>)
    ensures multiset(r) == multiset(s)
    decreases |s|
  {
    if s == [] then []
    else
      assert s == [s[0]] + s[1..];
      Insert(key, s[0], SortBy(key, s[1..]))
  }

  /** The sorted list is in column order. */
  lemma {:induction false} SortBySorted(key: SortType, s: seq<ProcessInfo>)
    ensures SortedBy(key, SortBy(key, s))
    decreases |s|
  {
    if s != [] {
      SortBySorted(key, s[1..]);
      InsertKeepsSorted(key, s[0], SortBy(key, s[1..]));
    }
  }

  /** One refresh of the table: enumerate, parse, order by the selected
      column. The result holds exactly the parsed records, in that order. */
  function Snapshot(output: Option<seq<string>>, key: SortType): (r: seq<ProcessInfo>)
    ensures multiset(r) == multiset(GetProcesses(output))
    ensures forall i, j :: 0 <= i < j < |r| ==> !Less(key, r[j], r[i])
  {
    SortBySorted(key, GetProcesses(output));
    SortBy(key, GetProcesses(output))
  }
}
