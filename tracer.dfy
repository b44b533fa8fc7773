/** The line loop of `STrace.run` in glitch/repair/interactive/tracer/tracer.py:
    banner lines of strace are skipped, the other lines are parsed into
    system calls and recorded in order, until the call that touches the
    sentinel program. */
module Tracer {
  import opened Text

  /** A traced system call. Only its arguments are looked at here. */
  datatype Syscall = Syscall(name: string, args: seq<string>)

  /** The program whose execution ends the trace. */
  const Sentinel := "/bin/synth-glitch"

  /** Lines strace prints about processes and signals rather than calls. */
  predicate IsBanner(line: string)
  {
    StartsWith(line, "strace: Process") || Contains(line, "+++ exited with") || Contains(line, "--- SIG")
  }

  predicate NotBanner(line: string)
  {
    !IsBanner(line)
  }

  predicate IsSentinel(call: Syscall)
  {
    Sentinel in call.args
  }

  /** The state of the loop after some lines: the calls recorded and whether
      the sentinel ended it. `parse` stands for
      `get_syscall_with_type(parse_tracer_output(line))`, which is not part of
      this model. */
  function Scan(lines: seq<string>, parse: string -> Syscall): (seq<Syscall>, bool)
  {
    if lines == [] then ([], false)
    else
      var (calls, stopped) := Scan(lines[..|lines| - 1], parse);
      var line := lines[|lines| - 1];
      if stopped || IsBanner(line) then (calls, stopped)
      else if IsSentinel(parse(line)) then (calls, true)
      else (calls + [parse(line)], false)
  }

  /** The calls of the lines, in order. */
  function ParseAll(lines: seq<string>, parse: string -> Syscall): (r: seq<Syscall>)
    ensures |r| == |lines|
    ensures forall k :: 0 <= k < |lines| ==> r[k] == parse(lines[k])
  {
    seq(|lines|, k requires 0 <= k < |lines| => parse(lines[k]))
  }

  /** The calls before the first sentinel call. */
  function UntilSentinel(calls: seq<Syscall>): (r: seq<Syscall>)
    ensures |r| <= |calls|
  {
    if calls == [] || IsSentinel(calls[0]) then [] else [calls[0]] + UntilSentinel(calls[1..])
  }

  /** `UntilSentinel` is a prefix of the calls, none of which touches the
      sentinel, and it stops short only at a sentinel call. */
  lemma {:induction false} UntilSentinelSpec(calls: seq<Syscall>)
    ensures var r := UntilSentinel(calls);
            r == calls[..|r|] &&
            (forall c :: c in r ==> !IsSentinel(c)) &&
            (|r| < |calls| ==> IsSentinel(calls[|r|]))
  {
    if calls != [] && !IsSentinel(calls[0]) {
      var t := UntilSentinel(calls[1..]);
      UntilSentinelSpec(calls[1..]);
      assert calls[..|t| + 1] == [calls[0]] + calls[1..][..|t|];
      if |t| < |calls[1..]| {
        assert calls[|t| + 1] == calls[1..][|t|];
      }
    }
  }

  lemma ParseAllSnoc(lines: seq<string>, line: string, parse: string -> Syscall)
    ensures ParseAll(lines + [line], parse) == ParseAll(lines, parse) + [parse(line)]
  {
    assert ParseAll(lines + [line], parse)[..|lines|] == ParseAll(lines, parse);
  }

  /** What the loop records, without the loop: the non-banner lines, parsed,
      up to the first sentinel call. */
  function Recorded(lines: seq<string>, parse: string -> Syscall): seq<Syscall>
  {
    UntilSentinel(ParseAll(Filter(NotBanner, lines), parse))
  }

  lemma {:induction false} UntilSentinelSnoc(calls: seq<Syscall>, c: Syscall)
    ensures UntilSentinel(calls + [c]) ==
            if |UntilSentinel(calls)| < |calls| then UntilSentinel(calls)
            else if IsSentinel(c) then calls else calls + [c]
  {
    if calls == [] {
      assert [c][1..] == [];
    } else if !IsSentinel(calls[0]) {
      var xs := calls + [c];
      assert xs[0] == calls[0] && xs[1..] == calls[1..] + [c];
      UntilSentinelSnoc(calls[1..], c);
      assert UntilSentinel(xs) == [calls[0]] + UntilSentinel(calls[1..] + [c]);
      assert UntilSentinel(calls) == [calls[0]] + UntilSentinel(calls[1..]);
      assert calls == [calls[0]] + calls[1..];
    }
  }

  /** The loop records exactly `Recorded`, and it has stopped exactly when
      some non-banner line parses to a sentinel call. */
  lemma {:induction false} ScanRecorded(lines: seq<string>, parse: string -> Syscall)
    ensures Scan(lines, parse).0 == Recorded(lines, parse)
    ensures Scan(lines, parse).1 <==> |Recorded(lines, parse)| < |Filter(NotBanner, lines)|
  {
    if lines != [] {
      var n := |lines| - 1;
      ScanRecorded(lines[..n], parse);
      if NotBanner(lines[n]) {
        ScanRecordedCall(lines, parse);
      } else {
        var kept := Filter(NotBanner, lines[..n]);
        assert Filter(NotBanner, lines) == kept + [] == kept;
        assert Recorded(lines, parse) == Recorded(lines[..n], parse);
        assert Scan(lines, parse) == Scan(lines[..n], parse);
      }
    }
  }

  /** The step of `ScanRecorded` on a line that is not a banner. */
  lemma ScanRecordedCall(lines: seq<string>, parse: string -> Syscall)
    requires lines != [] && NotBanner(lines[|lines| - 1])
    requires var front := lines[..|lines| - 1];
             Scan(front, parse).0 == Recorded(front, parse) &&
             (Scan(front, parse).1 <==> |Recorded(front, parse)| < |Filter(NotBanner, front)|)
    ensures Scan(lines, parse).0 == Recorded(lines, parse)
    ensures Scan(lines, parse).1 <==> |Recorded(lines, parse)| < |Filter(NotBanner, lines)|
  {
    var n := |lines| - 1;
    var front, c := lines[..n], parse(lines[n]);
    var kept := Filter(NotBanner, front);
    var calls := ParseAll(kept, parse);
    assert Filter(NotBanner, lines) == kept + [lines[n]];
    ParseAllSnoc(kept, lines[n], parse);
    assert Recorded(lines, parse) == UntilSentinel(calls + [c]);
    UntilSentinelSnoc(calls, c);
    if Scan(front, parse).1 {
      assert Scan(lines, parse) == Scan(front, parse);
    } else {
      UntilSentinelSpec(calls);
      assert UntilSentinel(calls) == calls;
      assert Scan(lines, parse) == if IsSentinel(c) then (calls, true) else (calls + [c], false);
    }
  }

  /** No recorded call touches the sentinel, and the recorded calls are the
      parsed non-banner lines in input order, one per line, cut at the first
      sentinel call. */
  lemma RecordedSpec(lines: seq<string>, parse: string -> Syscall)
    ensures var r := Recorded(lines, parse);
            var kept := Filter(NotBanner, lines);
            |r| <= |kept| &&
            (forall k :: 0 <= k < |r| ==> r[k] == parse(kept[k]) && !IsSentinel(r[k])) &&
            (|r| < |kept| ==> IsSentinel(parse(kept[|r|])))
  {
    var kept := Filter(NotBanner, lines);
    var r := Recorded(lines, parse);
    UntilSentinelSpec(ParseAll(kept, parse));
    forall k | 0 <= k < |r|
      ensures !IsSentinel(r[k])
    {
      assert r[k] in r;
    }
  }

  /** Banner lines are skipped without being parsed: dropping them changes
      nothing. */
  lemma {:induction false} BannersIgnored(lines: seq<string>, parse: string -> Syscall)
    ensures Recorded(Filter(NotBanner, lines), parse) == Recorded(lines, parse)
  {
    FilterTwice(NotBanner, lines);
  }

  lemma {:induction false} FilterTwice<T>(p: T -> bool, xs: seq<T>)
    ensures Filter(p, Filter(p, xs)) == Filter(p, xs)
  {
    if xs != [] {
      var n := |xs| - 1;
      FilterTwice(p, xs[..n]);
      FilterConcat(p, Filter(p, xs[..n]), if p(xs[n]) then [xs[n]] else []);
      assert [xs[n]][..0] == [];
    }
  }

  class STrace {
    var syscalls: seq<Syscall>
    var pid: string

    /** Every tracer starts with no calls. */
    constructor (pid: string)
      ensures syscalls == [] && this.pid == pid
    {
      syscalls := [];
      this.pid := pid;
    }

    /** The loop of `run` over the lines strace prints; it returns the
        instance's list of calls. */
    method Run(output: seq<string>, parse: string -> Syscall) returns (r: seq<Syscall>)
      modifies this
      ensures syscalls == old(syscalls) + Scan(output, parse).0
      ensures r == syscalls && pid == old(pid)
    {
      ghost var before := syscalls;
      var i := 0;
      while i < |output|
        invariant 0 <= i <= |output| && pid == old(pid)
        invariant syscalls == before + Scan(output[..i], parse).0 && !Scan(output[..i], parse).1
      {
        var line := output[i];
        assert output[..i + 1][..i] == output[..i];
        if IsBanner(line) {
          i := i + 1;
          continue;
        }
        var syscall := parse(line);
        if Sentinel in syscall.args {
          ScanSettled(output, i + 1, parse);
          return syscalls;
        }
        syscalls := syscalls + [syscall];
        i := i + 1;
      }
      if i == |output| {
        assert output[..i] == output;
      }
      return syscalls;
    }
  }

  /** After the sentinel, later lines change nothing. */
  lemma {:induction false} ScanSettled(lines: seq<string>, j: nat, parse: string -> Syscall)
    requires j <= |lines| && Scan(lines[..j], parse).1
    ensures Scan(lines, parse) == Scan(lines[..j], parse)
    decreases |lines| - j
  {
    if j < |lines| {
      assert lines[..j + 1][..j] == lines[..j];
      ScanSettled(lines, j + 1, parse);
    } else {
      assert lines[..j] == lines;
    }
  }
}
