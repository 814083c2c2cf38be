/**
 * The cron job store of cluster-manager (cluster-manager/cron.go): an
 * in-memory map from job ID to job, persisted after every change and
 * rendered into the host's crontab. Saving is an oracle: each mutating
 * operation is told whether `save` succeeds (None) or which error it returns
 * (Some(message)). The fresh UUID and the current time are parameters.
 * Go's map iteration order is unspecified; the operations that iterate the
 * map pick the next key with `:|` and report the order they used as a ghost
 * out-parameter.
 */
module Cron {
  import opened Wrappers

  datatype CronSchedule = CronSchedule(
    second: string,
    minute: string,
    hour: string,
    day: string,
    month: string,
    weekday: string)

  /** A job; times are plain integers (the clock is a parameter of the operations that read it). */
  datatype CronJob = CronJob(
    id: string,
    name: string,
    schedule: CronSchedule,
    command: string,
    enabled: bool,
    lastRun: Option<int>,
    lastStatus: string,
    createdAt: int)

  /** The error text `update` and `delete` return for an absent ID. */
  const NotFound: string := "job not found"

  // ---------------------------------------------------------------------
  // validateSchedule

  /** The schedule with every empty field filled in: "0" for the seconds, "*" for the rest. */
  function WithDefaults(s: CronSchedule): (r: CronSchedule)
    ensures Complete(r)
    ensures Complete(s) ==> r == s
  {
    CronSchedule(
      if s.second == "" then "0" else s.second,
      if s.minute == "" then "*" else s.minute,
      if s.hour == "" then "*" else s.hour,
      if s.day == "" then "*" else s.day,
      if s.month == "" then "*" else s.month,
      if s.weekday == "" then "*" else s.weekday)
  }

  predicate Complete(s: CronSchedule)
  {
    s.second != "" && s.minute != "" && s.hour != "" && s.day != "" && s.month != "" && s.weekday != ""
  }

  /**
   * validateSchedule: fills the empty fields one after the other and never
   * reports an error.
   */
  method ValidateSchedule(s: CronSchedule) returns (r: CronSchedule, err: Option<string>)
    ensures err == None
    ensures r == WithDefaults(s)
  {
    r := s;
    if r.second == "" {
      r := r.(second := "0");
    }
    if r.minute == "" {
      r := r.(minute := "*");
    }
    if r.hour == "" {
      r := r.(hour := "*");
    }
    if r.day == "" {
      r := r.(day := "*");
    }
    if r.month == "" {
      r := r.(month := "*");
    }
    if r.weekday == "" {
      r := r.(weekday := "*");
    }
    err := None;
  }

  /**
   * Filling in defaults leaves a complete schedule, keeps every field that
   * was already set, and is idempotent.
   */
  lemma DefaultsComplete(s: CronSchedule)
    ensures Complete(WithDefaults(s))
    ensures WithDefaults(WithDefaults(s)) == WithDefaults(s)
    ensures Complete(s) ==> WithDefaults(s) == s
    ensures s.second != "" ==> WithDefaults(s).second == s.second
    ensures s.minute != "" ==> WithDefaults(s).minute == s.minute
    ensures s.hour != "" ==> WithDefaults(s).hour == s.hour
    ensures s.day != "" ==> WithDefaults(s).day == s.day
    ensures s.month != "" ==> WithDefaults(s).month == s.month
    ensures s.weekday != "" ==> WithDefaults(s).weekday == s.weekday
    ensures s.second == "" ==> WithDefaults(s).second == "0"
    ensures s.minute == "" ==> WithDefaults(s).minute == "*"
    ensures s.hour == "" ==> WithDefaults(s).hour == "*"
    ensures s.day == "" ==> WithDefaults(s).day == "*"
    ensures s.month == "" ==> WithDefaults(s).month == "*"
    ensures s.weekday == "" ==> WithDefaults(s).weekday == "*"
  {
  }

  // ---------------------------------------------------------------------
  // Crontab text

  const Header: string := "# Managed by cluster-manager - DO NOT EDIT"
  const Marker: string := " # cluster-manager:"

  /** One crontab entry: five time fields (no seconds), the command, and a marker comment with the ID. */
  function JobLine(j: CronJob): (r: string)
    ensures EndsWithMarker(r, j.id)
  {
    var sc := j.schedule;
    var x := sc.minute + " " + sc.hour + " " + sc.day + " " + sc.month + " " + sc.weekday + " " + j.command;
    Assoc(x, Marker, j.id);
    SuffixOf(x, Marker + j.id);
    x + Marker + j.id
  }

  /** The IDs in `order` whose jobs are enabled, in that order. */
  function EnabledIds(order: seq<string>, jobs: map<string, CronJob>): (ids: seq<string>)
    requires forall i :: 0 <= i < |order| ==> order[i] in jobs
    ensures forall i :: 0 <= i < |ids| ==> ids[i] in jobs && jobs[ids[i]].enabled
  {
    if order == [] then []
    else (if jobs[order[0]].enabled then [order[0]] else []) + EnabledIds(order[1..], jobs)
  }

  /** The crontab line of the job stored under id. */
  function LineFor(jobs: map<string, CronJob>, id: string): string
  {
    if id in jobs then JobLine(jobs[id]) else ""
  }

  function LinesOf(jobs: map<string, CronJob>): string -> string
  {
    id => LineFor(jobs, id)
  }

  /** The lines of the jobs with the given IDs, in that order. */
  function JobLines(ids: seq<string>, jobs: map<string, CronJob>): seq<string>
  {
    MapSeq(LinesOf(jobs), ids)
  }

  /** f applied to every element. */
  function MapSeq<T, U>(f: T -> U, a: seq<T>): (r: seq<U>)
    ensures |r| == |a|
    ensures forall i :: 0 <= i < |a| ==> r[i] == f(a[i])
  {
    if a == [] then [] else [f(a[0])] + MapSeq(f, a[1..])
  }

  /** Every line followed by a newline, concatenated. */
  function Join(lines: seq<string>): string
  {
    if lines == [] then "" else lines[0] + "\n" + Join(lines[1..])
  }

  /** The crontab content for the jobs visited in the given order. */
  function CrontabText(jobs: map<string, CronJob>, order: seq<string>): (r: string)
    requires forall i :: 0 <= i < |order| ==> order[i] in jobs
    ensures |r| > |Header| && r[..|Header| + 1] == Header + "\n"
    ensures r[|r| - 1] == '\n'
  {
    var lines := [Header] + JobLines(EnabledIds(order, jobs), jobs);
    JoinEndsInNewline(lines);
    assert lines[1..] == JobLines(EnabledIds(order, jobs), jobs);
    PrefixOf(Header + "\n", Join(lines[1..]));
    Join(lines)
  }

  lemma PrefixOf<T>(a: seq<T>, b: seq<T>)
    ensures (a + b)[..|a|] == a
  {
  }

  /** `order` lists every key of the map exactly once. */
  predicate IsOrderOf(order: seq<string>, jobs: map<string, CronJob>)
  {
    multiset(order) == multiset(jobs.Keys)
  }

  /** `content` is what syncCrontab writes for some iteration order of the map. */
  ghost predicate IsCrontabOf(content: string, jobs: map<string, CronJob>)
  {
    exists order :: IsOrderOf(order, jobs) && OrderInMap(order, jobs) && content == CrontabText(jobs, order)
  }

  predicate OrderInMap(order: seq<string>, jobs: map<string, CronJob>)
  {
    forall i :: 0 <= i < |order| ==> order[i] in jobs
  }

  /** The set of enabled job IDs. */
  function EnabledSet(jobs: map<string, CronJob>): set<string>
  {
    set id | id in jobs && jobs[id].enabled
  }

  /** The first newline in s, or |s| when there is none. */
  function NewlineAt(s: string): (k: nat)
    ensures k <= |s|
    ensures forall m :: 0 <= m < k ==> s[m] != '\n'
    ensures k < |s| ==> s[k] == '\n'
  {
    if s == [] || s[0] == '\n' then 0 else 1 + NewlineAt(s[1..])
  }

  /** Reads text back as lines: each ends at a newline; a last line without one is kept. */
  function SplitLines(s: string): seq<string>
    decreases |s|
  {
    if s == [] then []
    else
      var k := NewlineAt(s);
      if k == |s| then [s] else [s[..k]] + SplitLines(s[k + 1..])
  }

  /** Where the text before the first space ends, and what follows that space. */
  function SplitSpace(s: string): (string, string)
  {
    if s == [] then ("", "")
    else if s[0] == ' ' then ("", s[1..])
    else var (w, rest) := SplitSpace(s[1..]); ([s[0]] + w, rest)
  }

  /** The first five space-separated fields of a line, and the rest of it. */
  function TimeFields(line: string): (seq<string>, string)
  {
    var (f1, r1) := SplitSpace(line);
    var (f2, r2) := SplitSpace(r1);
    var (f3, r3) := SplitSpace(r2);
    var (f4, r4) := SplitSpace(r3);
    var (f5, r5) := SplitSpace(r4);
    ([f1, f2, f3, f4, f5], r5)
  }

  lemma {:induction false} EnabledIdsAppend(order: seq<string>, x: string, jobs: map<string, CronJob>)
    requires forall i :: 0 <= i < |order| ==> order[i] in jobs
    requires x in jobs
    ensures EnabledIds(order + [x], jobs) == EnabledIds(order, jobs) + (if jobs[x].enabled then [x] else [])
  {
    if order == [] {
      assert [x][1..] == [];
    } else {
      assert (order + [x])[1..] == order[1..] + [x];
      EnabledIdsAppend(order[1..], x, jobs);
    }
  }

  lemma {:induction false} JoinAppend(lines: seq<string>, l: string)
    ensures Join(lines + [l]) == Join(lines) + l + "\n"
  {
    if lines == [] {
      assert [l][1..] == [];
    } else {
      assert (lines + [l])[1..] == lines[1..] + [l];
      JoinAppend(lines[1..], l);
    }
  }

  /** Joined text reads back as the same lines, provided no line holds a newline itself. */
  lemma {:induction false} SplitJoin(lines: seq<string>)
    requires forall i :: 0 <= i < |lines| ==> '\n' !in lines[i]
    ensures SplitLines(Join(lines)) == lines
  {
    if lines != [] {
      assert '\n' !in lines[0];
      SplitFirst(lines[0], Join(lines[1..]));
      SplitJoin(lines[1..]);
    }
  }

  /** A line without a newline, then a newline, reads back as that line first. */
  lemma SplitFirst(l: string, rest: string)
    requires '\n' !in l
    ensures SplitLines(l + "\n" + rest) == [l] + SplitLines(rest)
  {
    var s := l + "\n" + rest;
    assert s[|l|] == '\n';
    assert forall m :: 0 <= m < |l| ==> s[m] == l[m];
    assert NewlineAt(s) == |l|;
    assert s[..|l|] == l;
    assert s[|l| + 1..] == rest;
  }

  /** Non-empty joined text ends in a newline. */
  lemma {:induction false} JoinEndsInNewline(lines: seq<string>)
    requires lines != []
    ensures |Join(lines)| > 0 && Join(lines)[|Join(lines)| - 1] == '\n'
  {
    if lines[1..] == [] {
      assert Join(lines) == lines[0] + "\n";
    } else {
      JoinEndsInNewline(lines[1..]);
    }
  }

  /** Each ID that is enabled occurs exactly as often in the filtered order as in the order itself. */
  lemma {:induction false} EnabledIdsCount(order: seq<string>, jobs: map<string, CronJob>, x: string)
    requires forall i :: 0 <= i < |order| ==> order[i] in jobs
    ensures multiset(EnabledIds(order, jobs))[x] == if x in jobs && jobs[x].enabled then multiset(order)[x] else 0
  {
    if order != [] {
      EnabledIdsCount(order[1..], jobs, x);
      assert order == [order[0]] + order[1..];
      assert multiset(order) == multiset([order[0]]) + multiset(order[1..]);
    } else {
      assert multiset(order)[x] == 0;
    }
  }

  /**
   * For any iteration order of the map, the job lines are exactly one per
   * enabled job: each enabled ID occurs once, disabled and absent IDs never.
   */
  lemma OneLinePerEnabledJob(order: seq<string>, jobs: map<string, CronJob>)
    requires IsOrderOf(order, jobs) && OrderInMap(order, jobs)
    ensures multiset(EnabledIds(order, jobs)) == multiset(EnabledSet(jobs))
    ensures |JobLines(EnabledIds(order, jobs), jobs)| == |EnabledSet(jobs)|
  {
    forall x
      ensures multiset(EnabledIds(order, jobs))[x] == multiset(EnabledSet(jobs))[x]
    {
      EnabledIdsCount(order, jobs, x);
    }
    assert multiset(EnabledIds(order, jobs)) == multiset(EnabledSet(jobs));
    assert |EnabledIds(order, jobs)| == |multiset(EnabledIds(order, jobs))|;
  }

  lemma {:induction false} MapAppend<T, U>(f: T -> U, a: seq<T>, b: seq<T>)
    ensures MapSeq(f, a + b) == MapSeq(f, a) + MapSeq(f, b)
  {
    if a == [] {
      assert a + b == b;
    } else {
      assert (a + b)[0] == a[0];
      assert (a + b)[1..] == a[1..] + b;
      MapAppend(f, a[1..], b);
    }
  }

  lemma RemoveAt<T>(a: seq<T>, b: seq<T>, p: nat)
    requires a != [] && multiset(a) == multiset(b)
    requires p < |b| && b[p] == a[0]
    ensures multiset(a[1..]) == multiset(b[..p] + b[p + 1..])
  {
    assert a == [a[0]] + a[1..];
    assert b == b[..p] + [b[p]] + b[p + 1..];
    forall y
      ensures multiset(a[1..])[y] == multiset(b[..p] + b[p + 1..])[y]
    {
      assert multiset(a)[y] == multiset([a[0]])[y] + multiset(a[1..])[y];
      assert multiset(b)[y] == multiset(b[..p])[y] + multiset([b[p]])[y] + multiset(b[p + 1..])[y];
    }
  }

  /** Permuting the input permutes the output and nothing more. */
  lemma {:induction false} MapPermutation<T, U>(f: T -> U, a: seq<T>, b: seq<T>)
    requires multiset(a) == multiset(b)
    ensures multiset(MapSeq(f, a)) == multiset(MapSeq(f, b))
    decreases |a|
  {
    if a == [] {
      assert |b| == |multiset(b)| == 0;
    } else {
      var x, rest := a[0], a[1..];
      assert x in b by {
        assert x in multiset(b);
      }
      var p :| 0 <= p < |b| && b[p] == x;
      var b' := b[..p] + b[p + 1..];
      RemoveAt(a, b, p);
      MapPermutation(f, rest, b');
      assert a == [x] + rest;
      assert b == b[..p] + ([x] + b[p + 1..]);
      MapPermutationStep(f, x, rest, b[..p], b[p + 1..]);
    }
  }

  /** Putting the same element in front of one side and in the middle of the other. */
  lemma MapPermutationStep<T, U>(f: T -> U, x: T, rest: seq<T>, pre: seq<T>, post: seq<T>)
    requires multiset(MapSeq(f, rest)) == multiset(MapSeq(f, pre + post))
    ensures multiset(MapSeq(f, [x] + rest)) == multiset(MapSeq(f, pre + ([x] + post)))
  {
    MapAppend(f, [x], rest);
    MapAppend(f, pre, [x] + post);
    MapAppend(f, [x], post);
    MapAppend(f, pre, post);
  }

  /**
   * The crontab is the header followed by the enabled jobs' lines. When no
   * field of an enabled job holds a newline, reading the text back line by
   * line gives exactly those lines; a job whose command or schedule holds a
   * newline spreads over several crontab lines. In every case the multiset
   * of job lines does not depend on the map's iteration order, and the text
   * ends in a newline.
   */
  lemma CrontabLines(jobs: map<string, CronJob>, order: seq<string>, other: seq<string>)
    requires IsOrderOf(order, jobs) && OrderInMap(order, jobs)
    requires IsOrderOf(other, jobs) && OrderInMap(other, jobs)
    ensures (forall id :: id in EnabledSet(jobs) ==> '\n' !in JobLine(jobs[id])) ==>
      SplitLines(CrontabText(jobs, order)) == [Header] + JobLines(EnabledIds(order, jobs), jobs)
    ensures multiset(JobLines(EnabledIds(order, jobs), jobs)) == multiset(JobLines(EnabledIds(other, jobs), jobs))
    ensures |CrontabText(jobs, order)| > 0 && CrontabText(jobs, order)[|CrontabText(jobs, order)| - 1] == '\n'
  {
    var ids := EnabledIds(order, jobs);
    if forall id :: id in EnabledSet(jobs) ==> '\n' !in JobLine(jobs[id]) {
      CrontabReadBack(jobs, order);
    }
    OneLinePerEnabledJob(order, jobs);
    OneLinePerEnabledJob(other, jobs);
    MapPermutation(LinesOf(jobs), ids, EnabledIds(other, jobs));
  }

  lemma HeaderOneLine()
    ensures '\n' !in Header
  {
  }

  /** Without newlines in the enabled jobs' lines, the crontab reads back as its lines. */
  lemma CrontabReadBack(jobs: map<string, CronJob>, order: seq<string>)
    requires OrderInMap(order, jobs)
    requires forall id :: id in EnabledSet(jobs) ==> '\n' !in JobLine(jobs[id])
    ensures SplitLines(CrontabText(jobs, order)) == [Header] + JobLines(EnabledIds(order, jobs), jobs)
  {
    var ids := EnabledIds(order, jobs);
    var lines := [Header] + JobLines(ids, jobs);
    forall i | 0 <= i < |lines|
      ensures '\n' !in lines[i]
    {
      if i == 0 {
        HeaderOneLine();
      } else {
        assert lines[i] == JobLine(jobs[ids[i - 1]]);
        assert ids[i - 1] in EnabledSet(jobs);
      }
    }
    SplitJoin(lines);
  }

  /**
   * A job line carries the minute, hour, day, month and weekday as its first
   * five fields (the seconds are not written), followed by the command and
   * the marker comment with the ID, as long as no time field holds a space.
   */
  lemma JobLineFields(j: CronJob)
    requires ' ' !in j.schedule.minute && ' ' !in j.schedule.hour && ' ' !in j.schedule.day
    requires ' ' !in j.schedule.month && ' ' !in j.schedule.weekday
    ensures TimeFields(JobLine(j)) ==
      ([j.schedule.minute, j.schedule.hour, j.schedule.day, j.schedule.month, j.schedule.weekday],
       j.command + Marker + j.id)
  {
    var sc := j.schedule;
    var tail := j.command + Marker + j.id;
    assert JobLine(j) == sc.minute + " " + (sc.hour + " " + (sc.day + " " + (sc.month + " " + (sc.weekday + " " + tail))));
    SplitSpaceWord(sc.minute, sc.hour + " " + (sc.day + " " + (sc.month + " " + (sc.weekday + " " + tail))));
    SplitSpaceWord(sc.hour, sc.day + " " + (sc.month + " " + (sc.weekday + " " + tail)));
    SplitSpaceWord(sc.day, sc.month + " " + (sc.weekday + " " + tail));
    SplitSpaceWord(sc.month, sc.weekday + " " + tail);
    SplitSpaceWord(sc.weekday, tail);
  }

  /** The line ends with the marker comment naming id. */
  predicate EndsWithMarker(line: string, id: string)
  {
    |line| >= |Marker + id| && line[|line| - |Marker + id|..] == Marker + id
  }

  /**
   * In a store where every job sits under its own ID, each job line of the
   * crontab belongs to an enabled job and ends with the marker naming that
   * job's map key.
   */
  lemma CrontabMarkers(jobs: map<string, CronJob>, order: seq<string>)
    requires Keyed(jobs) && OrderInMap(order, jobs)
    ensures |JobLines(EnabledIds(order, jobs), jobs)| == |EnabledIds(order, jobs)|
    ensures forall i :: 0 <= i < |EnabledIds(order, jobs)| ==>
      && EnabledIds(order, jobs)[i] in jobs && jobs[EnabledIds(order, jobs)[i]].enabled
      && EndsWithMarker(JobLines(EnabledIds(order, jobs), jobs)[i], EnabledIds(order, jobs)[i])
  {
    var ids := EnabledIds(order, jobs);
    forall i | 0 <= i < |ids|
      ensures EndsWithMarker(JobLines(ids, jobs)[i], ids[i])
    {
      assert JobLines(ids, jobs)[i] == JobLine(jobs[ids[i]]);
    }
  }

  lemma SuffixOf<T>(a: seq<T>, b: seq<T>)
    ensures (a + b)[|a + b| - |b|..] == b
  {
  }

  lemma {:induction false} SplitSpaceWord(w: string, rest: string)
    requires ' ' !in w
    ensures SplitSpace(w + " " + rest) == (w, rest)
  {
    if w != [] {
      assert (w + " " + rest)[1..] == w[1..] + " " + rest;
      SplitSpaceWord(w[1..], rest);
      assert [w[0]] + w[1..] == w;
    }
  }

  /** syncCrontab's first loop: the header, then a line for each enabled job in map order. */
  method CollectLines(jobs: map<string, CronJob>) returns (lines: seq<string>, ghost order: seq<string>)
    ensures IsOrderOf(order, jobs) && OrderInMap(order, jobs)
    ensures lines == [Header] + JobLines(EnabledIds(order, jobs), jobs)
  {
    lines := [Header];
    var rest := jobs.Keys;
    order := [];
    while rest != {}
      invariant rest <= jobs.Keys
      invariant OrderInMap(order, jobs)
      invariant multiset(order) + multiset(rest) == multiset(jobs.Keys)
      invariant lines == [Header] + JobLines(EnabledIds(order, jobs), jobs)
      decreases |rest|
    {
      var id :| id in rest;
      CollectStep(order, id, jobs);
      if jobs[id].enabled {
        Assoc([Header], JobLines(EnabledIds(order, jobs), jobs), [JobLine(jobs[id])]);
        lines := lines + [JobLine(jobs[id])];
      }
      TakeOne(order, rest, jobs.Keys, id);
      order := order + [id];
      rest := rest - {id};
    }
  }

  /** Moving one element from the unvisited set to the end of the visiting order. */
  lemma TakeOne<T>(order: seq<T>, rest: set<T>, all: set<T>, x: T)
    requires multiset(order) + multiset(rest) == multiset(all)
    requires x in rest
    ensures multiset(order + [x]) + multiset(rest - {x}) == multiset(all)
  {
    assert multiset(rest) == multiset(rest - {x}) + multiset{x};
  }

  lemma CollectStep(order: seq<string>, id: string, jobs: map<string, CronJob>)
    requires OrderInMap(order, jobs) && id in jobs
    ensures OrderInMap(order + [id], jobs)
    ensures JobLines(EnabledIds(order + [id], jobs), jobs) ==
      if jobs[id].enabled then JobLines(EnabledIds(order, jobs), jobs) + [JobLine(jobs[id])]
      else JobLines(EnabledIds(order, jobs), jobs)
  {
    EnabledIdsAppend(order, id, jobs);
    var ids := EnabledIds(order, jobs);
    if jobs[id].enabled {
      MapAppend(LinesOf(jobs), ids, [id]);
    } else {
      assert ids + [] == ids;
    }
  }

  lemma Assoc<T>(a: seq<T>, b: seq<T>, c: seq<T>)
    ensures (a + b) + c == a + (b + c)
  {
  }

  /** syncCrontab's second loop: each line followed by a newline. */
  method JoinLines(lines: seq<string>) returns (content: string)
    ensures content == Join(lines)
  {
    content := "";
    var i := 0;
    while i < |lines|
      invariant 0 <= i <= |lines|
      invariant content == Join(lines[..i])
    {
      JoinAppend(lines[..i], lines[i]);
      assert lines[..i + 1] == lines[..i] + [lines[i]];
      content := content + lines[i] + "\n";
      i := i + 1;
    }
    assert lines[..i] == lines;
  }

  // ---------------------------------------------------------------------
  // load

  /** What reading and decoding crons.json produced. */
  datatype LoadInput = FileMissing | ReadFailed(err: string) | DecodeFailed(err: string) | Decoded(jobs: seq<CronJob>)

  /** Inserting decoded jobs one after the other under their own IDs. */
  function InsertAll(m: map<string, CronJob>, js: seq<CronJob>): map<string, CronJob>
    decreases |js|
  {
    if js == [] then m else InsertAll(m[js[0].id := js[0]], js[1..])
  }

  /** The IDs of a list of jobs. */
  function Ids(js: seq<CronJob>): (ids: set<string>)
    ensures forall i :: 0 <= i < |js| ==> js[i].id in ids
  {
    if js == [] then {} else {js[0].id} + Ids(js[1..])
  }

  /** Every job is stored under its own ID. */
  ghost predicate Keyed(m: map<string, CronJob>)
  {
    forall k :: k in m ==> m[k].id == k
  }

  lemma {:induction false} InsertAllAppend(m: map<string, CronJob>, js: seq<CronJob>, j: CronJob)
    ensures InsertAll(m, js + [j]) == InsertAll(m, js)[j.id := j]
    decreases |js|
  {
    if js == [] {
      assert [j][1..] == [];
    } else {
      assert (js + [j])[1..] == js[1..] + [j];
      InsertAllAppend(m[js[0].id := js[0]], js[1..], j);
    }
  }

  /** The listed IDs are exactly the IDs of the listed jobs. */
  lemma {:induction false} IdsExact(js: seq<CronJob>, x: string)
    ensures x in Ids(js) <==> exists i :: 0 <= i < |js| && js[i].id == x
  {
    if js != [] {
      IdsExact(js[1..], x);
      if x in Ids(js[1..]) {
        var i :| 0 <= i < |js[1..]| && js[1..][i].id == x;
        assert js[i + 1].id == x;
      }
    }
  }

  /** After inserting a list, the keys are the old keys plus the listed IDs, and jobs stay under their own IDs. */
  lemma {:induction false} InsertAllKeys(m: map<string, CronJob>, js: seq<CronJob>)
    ensures InsertAll(m, js).Keys == m.Keys + Ids(js)
    ensures Keyed(m) ==> Keyed(InsertAll(m, js))
    decreases |js|
  {
    if js != [] {
      InsertAllKeys(m[js[0].id := js[0]], js[1..]);
    }
  }

  /** An ID listed several times holds the job listed last. */
  lemma {:induction false} InsertAllLastWins(m: map<string, CronJob>, js: seq<CronJob>, i: nat)
    requires i < |js|
    requires forall k :: i < k < |js| ==> js[k].id != js[i].id
    ensures js[i].id in InsertAll(m, js) && InsertAll(m, js)[js[i].id] == js[i]
    decreases |js|
  {
    if i == 0 {
      assert js[0].id !in Ids(js[1..]) by {
        IdsExact(js[1..], js[0].id);
        forall k | 0 <= k < |js[1..]|
          ensures js[1..][k].id != js[0].id
        {
          assert js[1..][k] == js[k + 1];
        }
      }
      InsertAllKeeps(m[js[0].id := js[0]], js[1..], js[0].id);
    } else {
      forall k | i - 1 < k < |js[1..]|
        ensures js[1..][k].id != js[1..][i - 1].id
      {
        assert js[1..][k] == js[k + 1];
      }
      InsertAllLastWins(m[js[0].id := js[0]], js[1..], i - 1);
    }
  }

  /** An ID not listed keeps its old job. */
  lemma {:induction false} InsertAllKeeps(m: map<string, CronJob>, js: seq<CronJob>, k: string)
    requires k in m && k !in Ids(js)
    ensures k in InsertAll(m, js) && InsertAll(m, js)[k] == m[k]
    decreases |js|
  {
    if js != [] {
      InsertAllKeeps(m[js[0].id := js[0]], js[1..], k);
    }
  }

  /** load's insertion loop over the decoded list. */
  method InsertEach(m: map<string, CronJob>, js: seq<CronJob>) returns (r: map<string, CronJob>)
    ensures r == InsertAll(m, js)
  {
    r := m;
    var i := 0;
    while i < |js|
      invariant 0 <= i <= |js|
      invariant r == InsertAll(m, js[..i])
    {
      InsertAllAppend(m, js[..i], js[i]);
      assert js[..i + 1] == js[..i] + [js[i]];
      r := r[js[i].id := js[i]];
      i := i + 1;
    }
    assert js[..i] == js;
  }

  // ---------------------------------------------------------------------
  // The store

  class CronStore {
    /** The job map, keyed by job ID. */
    var jobs: map<string, CronJob>
    /** The content last written to the crontab files by syncCrontab ("" before the first sync). */
    var crontab: string

    ghost predicate Valid()
      reads this
    {
      Keyed(jobs)
    }

    constructor ()
      ensures Valid() && jobs == map[] && crontab == ""
    {
      jobs := map[];
      crontab := "";
    }

    /** syncCrontab: renders the enabled jobs and installs the text. */
    method SyncCrontab()
      modifies this
      ensures jobs == old(jobs)
      ensures IsCrontabOf(crontab, jobs)
    {
      var lines, order := CollectLines(jobs);
      var content := JoinLines(lines);
      crontab := content;
    }

    /**
     * load: a missing file leaves the store as it is and is not an error; a
     * read or decode error is returned; otherwise every decoded job is
     * inserted under its ID, later duplicates overwriting earlier ones.
     */
    method Load(input: LoadInput) returns (err: Option<string>)
      requires Valid()
      modifies this
      ensures Valid() && crontab == old(crontab)
      ensures input.FileMissing? ==> err == None && jobs == old(jobs)
      ensures input.ReadFailed? ==> err == Some(input.err) && jobs == old(jobs)
      ensures input.DecodeFailed? ==> err == Some(input.err) && jobs == old(jobs)
      ensures input.Decoded? ==> err == None && jobs == InsertAll(old(jobs), input.jobs)
    {
      match input
      case FileMissing =>
        return None;
      case ReadFailed(e) =>
        return Some(e);
      case DecodeFailed(e) =>
        return Some(e);
      case Decoded(js) =>
        var m := InsertEach(jobs, js);
        InsertAllKeys(jobs, js);
        jobs := m;
        err := None;
    }

    /** list: every stored job exactly once, in map order. */
    method List() returns (result: seq<CronJob>, ghost order: seq<string>)
      ensures IsOrderOf(order, jobs) && OrderInMap(order, jobs)
      ensures |result| == |order| == |jobs|
      ensures forall i :: 0 <= i < |order| ==> result[i] == jobs[order[i]]
      ensures Valid() ==> forall i :: 0 <= i < |order| ==> result[i].id == order[i]
    {
      result := [];
      order := [];
      var rest := jobs.Keys;
      while rest != {}
        invariant rest <= jobs.Keys
        invariant OrderInMap(order, jobs)
        invariant multiset(order) + multiset(rest) == multiset(jobs.Keys)
        invariant |result| == |order|
        invariant forall i :: 0 <= i < |order| ==> result[i] == jobs[order[i]]
        decreases |rest|
      {
        var id :| id in rest;
        result := result + [jobs[id]];
        TakeOne(order, rest, jobs.Keys, id);
        order := order + [id];
        rest := rest - {id};
      }
      assert |order| == |multiset(order)| == |multiset(jobs.Keys)| == |jobs.Keys|;
    }

    /** get: the job stored under id, if any. */
    function Get(id: string): (r: Option<CronJob>)
      reads this
      ensures r.Some? <==> id in jobs
      ensures r.Some? ==> r.value == jobs[id]
      ensures Valid() && r.Some? ==> r.value.id == id
    {
      if id in jobs then Some(jobs[id]) else None
    }

    /**
     * create: the job gets the fresh ID and the creation time and is stored
     * under that ID; when the save fails it is removed again and the save
     * error returned. The crontab is synced only for an enabled job.
     */
    method Create(job: CronJob, uuid: string, now: int, saveResult: Option<string>)
      returns (created: CronJob, err: Option<string>)
      requires Valid() && uuid !in jobs
      modifies this
      ensures Valid()
      ensures created == job.(id := uuid, createdAt := now)
      ensures err == saveResult
      ensures saveResult.Some? ==> jobs == old(jobs) && crontab == old(crontab)
      ensures saveResult.None? ==> jobs == old(jobs)[uuid := created] && |jobs| == |old(jobs)| + 1
      ensures saveResult.None? && job.enabled ==> IsCrontabOf(crontab, jobs)
      ensures saveResult.None? && !job.enabled ==> crontab == old(crontab)
    {
      created := job.(id := uuid, createdAt := now);
      jobs := jobs[uuid := created];
      if saveResult.Some? {
        jobs := jobs - {uuid};
        assert jobs == old(jobs);
        return created, saveResult;
      }
      if created.enabled {
        SyncCrontab();
      }
      err := None;
    }

    /** The record update stores: ID, creation time and run history from the existing job, the rest from the new one. */
    static function Merge(id: string, existing: CronJob, job: CronJob): (r: CronJob)
      ensures r.id == id && r.createdAt == existing.createdAt
      ensures r.lastRun == existing.lastRun && r.lastStatus == existing.lastStatus
      ensures r.name == job.name && r.schedule == job.schedule
      ensures r.command == job.command && r.enabled == job.enabled
    {
      job.(id := id, createdAt := existing.createdAt, lastRun := existing.lastRun, lastStatus := existing.lastStatus)
    }

    /**
     * update: an absent ID is "job not found" and changes nothing; a failed
     * save restores the existing record; a successful one syncs the crontab.
     */
    method Update(id: string, job: CronJob, saveResult: Option<string>) returns (err: Option<string>)
      requires Valid()
      modifies this
      ensures Valid()
      ensures id !in old(jobs) ==> err == Some(NotFound) && jobs == old(jobs) && crontab == old(crontab)
      ensures id in old(jobs) && saveResult.Some? ==> err == saveResult && jobs == old(jobs) && crontab == old(crontab)
      ensures id in old(jobs) && saveResult.None? ==>
        && err == None
        && jobs == old(jobs)[id := Merge(id, old(jobs)[id], job)]
        && IsCrontabOf(crontab, jobs)
    {
      if id !in jobs {
        return Some(NotFound);
      }
      var existing := jobs[id];
      jobs := jobs[id := Merge(id, existing, job)];
      if saveResult.Some? {
        jobs := jobs[id := existing];
        assert jobs == old(jobs);
        return saveResult;
      }
      SyncCrontab();
      err := None;
    }

    /**
     * delete: an absent ID is "job not found" and changes nothing; a failed
     * save puts the record back; a successful one syncs the crontab.
     */
    method Delete(id: string, saveResult: Option<string>) returns (err: Option<string>)
      requires Valid()
      modifies this
      ensures Valid()
      ensures id !in old(jobs) ==> err == Some(NotFound) && jobs == old(jobs) && crontab == old(crontab)
      ensures id in old(jobs) && saveResult.Some? ==> err == saveResult && jobs == old(jobs) && crontab == old(crontab)
      ensures id in old(jobs) && saveResult.None? ==>
        && err == None
        && jobs == old(jobs) - {id} && |jobs| == |old(jobs)| - 1
        && IsCrontabOf(crontab, jobs)
    {
      if id !in jobs {
        return Some(NotFound);
      }
      var existing := jobs[id];
      jobs := jobs - {id};
      if saveResult.Some? {
        jobs := jobs[id := existing];
        assert jobs == old(jobs);
        return saveResult;
      }
      SyncCrontab();
      err := None;
    }

    /**
     * updateRunStatus: records the run time and status of a stored job and
     * does nothing for an absent one. The save's outcome is ignored and the
     * crontab is not synced.
     */
    method UpdateRunStatus(id: string, status: string, now: int)
      requires Valid()
      modifies this
      ensures Valid() && crontab == old(crontab)
      ensures id !in old(jobs) ==> jobs == old(jobs)
      ensures id in old(jobs) ==> jobs == old(jobs)[id := old(jobs)[id].(lastRun := Some(now), lastStatus := status)]
    {
      if id in jobs {
        jobs := jobs[id := jobs[id].(lastRun := Some(now), lastStatus := status)];
      }
    }

    /** handleCronCreate: validation first; the store is touched only by a valid request. */
    method HandleCreate(decoded: Option<CronJob>, uuid: string, now: int, saveResult: Option<string>)
      returns (reply: Reply)
      requires Valid() && uuid !in jobs
      modifies this
      ensures Valid()
      ensures reply == CreateReply(decoded, saveResult)
      ensures !(decoded.Some? && HasNameAndCommand(decoded.value)) ==> jobs == old(jobs) && crontab == old(crontab)
      ensures reply.code == StatusInternalServerError ==> jobs == old(jobs) && crontab == old(crontab)
      ensures reply.code == StatusCreated ==>
        jobs == old(jobs)[uuid := decoded.value.(schedule := WithDefaults(decoded.value.schedule), id := uuid, createdAt := now)]
      ensures reply.code == StatusCreated && decoded.value.enabled ==> IsCrontabOf(crontab, jobs)
      ensures reply.code == StatusCreated && !decoded.value.enabled ==> crontab == old(crontab)
    {
      if decoded.None? {
        return Failure(StatusBadRequest, "invalid payload");
      }
      var job := decoded.value;
      if job.name == "" || job.command == "" {
        return Failure(StatusBadRequest, "name and command required");
      }
      // validateSchedule never reports an error, so its error branch is dead
      var sched, _ := ValidateSchedule(job.schedule);
      job := job.(schedule := sched);
      var created, err := Create(job, uuid, now, saveResult);
      if err.Some? {
        return Failure(StatusInternalServerError, err.value);
      }
      reply := Success(StatusCreated);
    }

    /** handleCronUpdate: validation first; the store is asked only for a valid request. */
    method HandleUpdate(id: string, decoded: Option<CronJob>, saveResult: Option<string>) returns (reply: Reply)
      requires Valid()
      modifies this
      ensures Valid()
      ensures reply == UpdateReply(id, decoded, if id in old(jobs) then saveResult else Some(NotFound))
      ensures !(id != "" && decoded.Some? && HasNameAndCommand(decoded.value)) ==> jobs == old(jobs) && crontab == old(crontab)
      ensures reply.code == StatusNotFound || reply.code == StatusInternalServerError ==>
        jobs == old(jobs) && crontab == old(crontab)
      ensures reply.code == StatusOK ==>
        jobs == old(jobs)[id := Merge(id, old(jobs)[id], decoded.value.(schedule := WithDefaults(decoded.value.schedule)))]
      ensures reply.code == StatusOK ==> IsCrontabOf(crontab, jobs)
    {
      if id == "" {
        return Failure(StatusBadRequest, "id required");
      }
      if decoded.None? {
        return Failure(StatusBadRequest, "invalid payload");
      }
      var job := decoded.value;
      if job.name == "" || job.command == "" {
        return Failure(StatusBadRequest, "name and command required");
      }
      var sched, _ := ValidateSchedule(job.schedule);
      job := job.(schedule := sched);
      var err := Update(id, job, saveResult);
      if err.Some? {
        return StoreErrorReply(err.value);
      }
      reply := Success(StatusOK);
    }

    /** handleCronDelete. */
    method HandleDelete(id: string, saveResult: Option<string>) returns (reply: Reply)
      requires Valid()
      modifies this
      ensures Valid()
      ensures reply == DeleteReply(id, if id in old(jobs) then saveResult else Some(NotFound))
      ensures id == "" ==> jobs == old(jobs) && crontab == old(crontab)
      ensures reply.code == StatusNotFound || reply.code == StatusInternalServerError ==>
        jobs == old(jobs) && crontab == old(crontab)
      ensures reply.code == StatusOK ==> jobs == old(jobs) - {id} && IsCrontabOf(crontab, jobs)
    {
      if id == "" {
        return Failure(StatusBadRequest, "id required");
      }
      var err := Delete(id, saveResult);
      if err.Some? {
        return StoreErrorReply(err.value);
      }
      reply := Success(StatusOK);
    }

    /**
     * handleCronRun: answers at once and hands back the command line to run
     * in the background; the store is not changed until the run finishes.
     */
    method HandleRun(id: string, hostRoot: string) returns (reply: Reply, launch: Option<seq<string>>)
      requires Valid()
      ensures reply == RunReply(id, id in jobs)
      ensures launch.Some? <==> reply.code == StatusOK
      ensures launch.Some? ==> launch.value == RunArgv(hostRoot, jobs[id])
    {
      if id == "" {
        return Failure(StatusBadRequest, "id required"), None;
      }
      var job := Get(id);
      if job.None? {
        return Failure(StatusNotFound, NotFound), None;
      }
      reply, launch := Success(StatusOK), Some(RunArgv(hostRoot, job.value));
    }

    /** The background run of handleCronRun finished: record "success" or the failure. */
    method RunFinished(id: string, runErr: Option<string>, now: int)
      requires Valid()
      modifies this
      ensures Valid() && crontab == old(crontab)
      ensures id !in old(jobs) ==> jobs == old(jobs)
      ensures id in old(jobs) ==>
        jobs == old(jobs)[id := old(jobs)[id].(lastRun := Some(now), lastStatus := RunStatusText(runErr))]
    {
      UpdateRunStatus(id, RunStatusText(runErr), now);
    }
  }

  /** getCronCount: the number of stored jobs, 0 before the store exists. */
  function CronCount(s: CronStore?): (n: nat)
    reads s
    ensures s == null ==> n == 0
    ensures s != null ==> n == |s.jobs|
  {
    if s == null then 0 else |s.jobs|
  }

  // ---------------------------------------------------------------------
  // The handlers' decisions

  const StatusOK := 200
  const StatusCreated := 201
  const StatusBadRequest := 400
  const StatusNotFound := 404
  const StatusInternalServerError := 500

  /** What a handler answers: an error status with its message, or a success status (JSON body not modelled). */
  datatype Reply = Failure(code: int, message: string) | Success(code: int)

  predicate HasNameAndCommand(j: CronJob)
  {
    j.name != "" && j.command != ""
  }

  /** The status for an error returned by update or delete: 404 for "job not found", 500 otherwise. */
  function StoreErrorReply(err: string): Reply
  {
    if err == NotFound then Failure(StatusNotFound, err) else Failure(StatusInternalServerError, err)
  }

  /** handleCronCreate, given the decoded payload (None when decoding failed) and what create returned. */
  function CreateReply(decoded: Option<CronJob>, createErr: Option<string>): Reply
  {
    if decoded.None? then Failure(StatusBadRequest, "invalid payload")
    else if !HasNameAndCommand(decoded.value) then Failure(StatusBadRequest, "name and command required")
    else if createErr.Some? then Failure(StatusInternalServerError, createErr.value)
    else Success(StatusCreated)
  }

  /** handleCronUpdate, given the path ID, the decoded payload and what update returned. */
  function UpdateReply(id: string, decoded: Option<CronJob>, updateErr: Option<string>): Reply
  {
    if id == "" then Failure(StatusBadRequest, "id required")
    else if decoded.None? then Failure(StatusBadRequest, "invalid payload")
    else if !HasNameAndCommand(decoded.value) then Failure(StatusBadRequest, "name and command required")
    else if updateErr.Some? then StoreErrorReply(updateErr.value)
    else Success(StatusOK)
  }

  /** handleCronDelete, given the path ID and what delete returned. */
  function DeleteReply(id: string, deleteErr: Option<string>): Reply
  {
    if id == "" then Failure(StatusBadRequest, "id required")
    else if deleteErr.Some? then StoreErrorReply(deleteErr.value)
    else Success(StatusOK)
  }

  /** handleCronRun, given the path ID and whether get found the job. */
  function RunReply(id: string, found: bool): Reply
  {
    if id == "" then Failure(StatusBadRequest, "id required")
    else if !found then Failure(StatusNotFound, NotFound)
    else Success(StatusOK)
  }

  /** The status recorded after a run: "success", or "failed: " and the command's error. */
  function RunStatusText(runErr: Option<string>): (t: string)
    ensures runErr.None? ==> t == "success"
    ensures runErr.Some? ==> |t| >= 8 && t[..8] == "failed: " && t[8..] == runErr.value
  {
    if runErr.None? then "success" else "failed: " + runErr.value
  }

  /** The command line a run executes: the job's command under /bin/sh -c, chrooted to the host root. */
  function RunArgv(hostRoot: string, j: CronJob): (argv: seq<string>)
    ensures |argv| == 5 && argv[0] == "chroot" && argv[1] == hostRoot
    ensures argv[2] == "/bin/sh" && argv[3] == "-c" && argv[4] == j.command
  {
    ["chroot", hostRoot, "/bin/sh", "-c", j.command]
  }

  /**
   * The status codes the handlers send: a missing ID, an undecodable payload
   * or a job without name or command is 400 before the store is asked; after
   * that, 404 exactly when the store reports "job not found", 500 for any
   * other store error, and success otherwise.
   */
  lemma ReplyCodes(id: string, decoded: Option<CronJob>, err: Option<string>, found: bool)
    ensures CreateReply(decoded, err).code == StatusBadRequest <==> decoded.None? || !HasNameAndCommand(decoded.value)
    ensures CreateReply(decoded, err).code == StatusInternalServerError <==>
      decoded.Some? && HasNameAndCommand(decoded.value) && err.Some?
    ensures CreateReply(decoded, err).code == StatusCreated <==>
      decoded.Some? && HasNameAndCommand(decoded.value) && err.None?
    ensures UpdateReply(id, decoded, err).code == StatusBadRequest <==>
      id == "" || decoded.None? || !HasNameAndCommand(decoded.value)
    ensures UpdateReply(id, decoded, err).code == StatusNotFound <==>
      id != "" && decoded.Some? && HasNameAndCommand(decoded.value) && err == Some(NotFound)
    ensures UpdateReply(id, decoded, err).code == StatusInternalServerError <==>
      id != "" && decoded.Some? && HasNameAndCommand(decoded.value) && err.Some? && err != Some(NotFound)
    ensures UpdateReply(id, decoded, err).code == StatusOK <==>
      id != "" && decoded.Some? && HasNameAndCommand(decoded.value) && err.None?
    ensures DeleteReply(id, err).code == StatusBadRequest <==> id == ""
    ensures DeleteReply(id, err).code == StatusNotFound <==> id != "" && err == Some(NotFound)
    ensures DeleteReply(id, err).code == StatusInternalServerError <==> id != "" && err.Some? && err != Some(NotFound)
    ensures DeleteReply(id, err).code == StatusOK <==> id != "" && err.None?
    ensures RunReply(id, found).code == StatusBadRequest <==> id == ""
    ensures RunReply(id, found).code == StatusNotFound <==> id != "" && !found
    ensures RunReply(id, found).code == StatusOK <==> id != "" && found
  {
  }
}
