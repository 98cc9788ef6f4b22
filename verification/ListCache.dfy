/** The mtime-validated cache of list files: loaders that stat, look up, read line by line
    and store, interleaved with each other and with writers of the file. */
module ListCache {
  import opened Wrappers
  import opened Bytes

  // ----- parsing -----

  /** The library parsers a line goes through, as oracles. */
  datatype Library = Library(parseCIDR: string -> Option<string>, parseIP: string -> Option<string>,
    lower: string -> string)

  datatype Payload = Payload(domainSuffixes: seq<string>, cidrs: seq<string>, ips: set<string>)

  const EMPTY := Payload([], [], {})

  function TrimDot(s: string): string {
    if HasPrefix(s, ".") then s[1..] else s
  }

  /** One scanned line added to the payload. */
  function AddLine(lib: Library, p: Payload, raw: string): Payload {
    var line := TrimSpace(raw);
    if line == "" || HasPrefix(line, "#") then p
    else if '/' in line && lib.parseCIDR(line).Some? then p.(cidrs := p.cidrs + [lib.parseCIDR(line).value])
    else if lib.parseIP(line).Some? then p.(ips := p.ips + {lib.parseIP(line).value})
    else p.(domainSuffixes := p.domainSuffixes + [lib.lower(TrimDot(line))])
  }

  function Collect(lib: Library, lines: seq<string>): Payload {
    if lines == [] then EMPTY else AddLine(lib, Collect(lib, lines[..|lines| - 1]), lines[|lines| - 1])
  }

  /** The buffer of the line scanner, which must hold a line and its line end. */
  const MAX_LINE := 65536

  predicate TooLong(line: string) {
    |line| >= MAX_LINE
  }

  /** The lines the scanner delivers: it stops at the first that is too long. */
  function Delivered(lines: seq<string>): seq<string> {
    if lines == [] || TooLong(lines[0]) then [] else [lines[0]] + Delivered(lines[1..])
  }

  function Parse(lib: Library, lines: seq<string>): Payload {
    Collect(lib, Delivered(lines))
  }

  lemma {:induction false} DeliveredUpTo(lines: seq<string>, n: nat)
    requires n <= |lines| && forall j :: 0 <= j < n ==> !TooLong(lines[j])
    requires n < |lines| ==> TooLong(lines[n])
    ensures Delivered(lines) == lines[..n]
  {
    if n > 0 {
      DeliveredUpTo(lines[1..], n - 1);
      assert lines[..n] == [lines[0]] + lines[1..][..n - 1];
    }
  }

  lemma {:induction false} DeliveredIsFront(lines: seq<string>) returns (n: nat)
    ensures n <= |lines| && Delivered(lines) == lines[..n]
    ensures forall j :: 0 <= j < n ==> !TooLong(lines[j])
    ensures n < |lines| ==> TooLong(lines[n])
  {
    n := 0;
    while n < |lines| && !TooLong(lines[n])
      invariant n <= |lines| && forall j :: 0 <= j < n ==> !TooLong(lines[j])
    {
      n := n + 1;
    }
    DeliveredUpTo(lines, n);
  }

  /** Behind a line that is too long nothing is read, whatever it is. */
  lemma {:induction false} LongLineHides(lib: Library, front: seq<string>, long: string, rest: seq<string>)
    requires |long| >= 65536 && forall j :: 0 <= j < |front| ==> |front[j]| < 65536
    ensures Parse(lib, front + [long] + rest) == Parse(lib, front) == Collect(lib, front)
  {
    var lines := front + [long] + rest;
    DeliveredUpTo(lines, |front|);
    DeliveredUpTo(front, |front|);
    assert lines[..|front|] == front && front[..|front|] == front;
  }

  // ----- what a line is -----

  predicate Skipped(raw: string) {
    TrimSpace(raw) == "" || HasPrefix(TrimSpace(raw), "#")
  }

  /** The network of a CIDR line. */
  function CidrOf(lib: Library, raw: string): Option<string> {
    if Skipped(raw) || '/' !in TrimSpace(raw) then None else lib.parseCIDR(TrimSpace(raw))
  }

  /** The address of an IP line. */
  function IpOf(lib: Library, raw: string): Option<string> {
    if Skipped(raw) || CidrOf(lib, raw).Some? then None else lib.parseIP(TrimSpace(raw))
  }

  /** The suffix of any other line, without its leading dot and in lower case. */
  function SuffixOf(lib: Library, raw: string): Option<string> {
    if Skipped(raw) || CidrOf(lib, raw).Some? || IpOf(lib, raw).Some? then None
    else Some(lib.lower(TrimDot(TrimSpace(raw))))
  }

  datatype Sort = Network | Address | Suffix

  function EntryOf(lib: Library, sort: Sort, raw: string): Option<string> {
    match sort
    case Network => CidrOf(lib, raw)
    case Address => IpOf(lib, raw)
    case Suffix => SuffixOf(lib, raw)
  }

  ghost predicate SomeLine(lib: Library, sort: Sort, lines: seq<string>, x: string) {
    exists k :: 0 <= k < |lines| && EntryOf(lib, sort, lines[k]) == Some(x)
  }

  /** The payload holds the networks, the addresses and the suffixes of the lines, and nothing
      else. */
  ghost predicate Holds(lib: Library, p: Payload, lines: seq<string>) {
    && (forall x :: x in p.cidrs <==> SomeLine(lib, Network, lines, x))
    && (forall x :: x in p.ips <==> SomeLine(lib, Address, lines, x))
    && (forall x :: x in p.domainSuffixes <==> SomeLine(lib, Suffix, lines, x))
  }

  lemma {:induction false} SomeLineSnoc(lib: Library, sort: Sort, lines: seq<string>, raw: string, x: string)
    ensures SomeLine(lib, sort, lines + [raw], x) <==>
      SomeLine(lib, sort, lines, x) || EntryOf(lib, sort, raw) == Some(x)
  {
    hide EntryOf;
    if SomeLine(lib, sort, lines, x) {
      var k :| 0 <= k < |lines| && EntryOf(lib, sort, lines[k]) == Some(x);
      assert (lines + [raw])[k] == lines[k];
    }
    assert (lines + [raw])[|lines|] == raw;
  }

  lemma {:induction false} AddLineHolds(lib: Library, p: Payload, lines: seq<string>, raw: string)
    requires Holds(lib, p, lines)
    ensures Holds(lib, AddLine(lib, p, raw), lines + [raw])
  {
    hide TrimSpace, TrimDot, SomeLine, HasPrefix;
    forall sort, x
      ensures SomeLine(lib, sort, lines + [raw], x) <==>
        SomeLine(lib, sort, lines, x) || EntryOf(lib, sort, raw) == Some(x)
    {
      SomeLineSnoc(lib, sort, lines, raw, x);
    }
  }

  lemma {:induction false} CollectHolds(lib: Library, lines: seq<string>)
    ensures Holds(lib, Collect(lib, lines), lines)
  {
    hide AddLine;
    if lines != [] {
      var front, last := lines[..|lines| - 1], lines[|lines| - 1];
      CollectHolds(lib, front);
      AddLineHolds(lib, Collect(lib, front), front, last);
      assert lines == front + [last];
    }
  }

  /** The scanning loop of `loadList`. */
  method Scan(lib: Library, lines: seq<string>) returns (p: Payload)
    ensures p == Parse(lib, lines) && Holds(lib, p, Delivered(lines))
  {
    p := EMPTY;
    var k := 0;
    while k < |lines| && !TooLong(lines[k])
      invariant k <= |lines| && forall j :: 0 <= j < k ==> !TooLong(lines[j])
      invariant p == Collect(lib, lines[..k])
    {
      assert lines[..k + 1][..k] == lines[..k];
      k := k + 1;
      var line := TrimSpace(lines[k - 1]);
      if line == "" || HasPrefix(line, "#") {
        continue;
      }
      if '/' in line {
        var net := lib.parseCIDR(line);
        if net.Some? {
          p := p.(cidrs := p.cidrs + [net.value]);
          continue;
        }
      }
      var ip := lib.parseIP(line);
      if ip.Some? {
        p := p.(ips := p.ips + {ip.value});
        continue;
      }
      p := p.(domainSuffixes := p.domainSuffixes + [lib.lower(TrimDot(line))]);
    }
    DeliveredUpTo(lines, k);
    CollectHolds(lib, Delivered(lines));
  }

  predicate SuffixMatches(lower: string, suffix: string) {
    lower == suffix || HasSuffix(lower, "." + suffix)
  }

  /** The search of `matchDomainList` in a loaded list. */
  method MatchDomains(lib: Library, host: string, list: Option<Payload>) returns (found: bool)
    ensures found <==> list.Some? && exists k ::
      0 <= k < |list.value.domainSuffixes| && SuffixMatches(lib.lower(host), list.value.domainSuffixes[k])
  {
    if list.None? {
      return false;
    }
    var lower := lib.lower(host);
    for k := 0 to |list.value.domainSuffixes|
      invariant forall j :: 0 <= j < k ==> !SuffixMatches(lower, list.value.domainSuffixes[j])
    {
      var suffix := list.value.domainSuffixes[k];
      if lower == suffix || HasSuffix(lower, "." + suffix) {
        return true;
      }
    }
    return false;
  }

  /** The line lists the host: it is no comment, network or address, and the host is its suffix
      or ends with it behind a dot. */
  predicate Lists(lib: Library, raw: string, host: string) {
    var line, name := TrimSpace(raw), lib.lower(host);
    && line != "" && line[0] != '#'
    && !('/' in line && lib.parseCIDR(line).Some?)
    && lib.parseIP(line).None?
    && var suffix := lib.lower(if line[0] == '.' then line[1..] else line);
       name == suffix || (|name| > |suffix| && name[|name| - |suffix| - 1..] == "." + suffix)
  }

  lemma {:induction false} ListsIff(lib: Library, raw: string, host: string)
    ensures Lists(lib, raw, host) <==>
      SuffixOf(lib, raw).Some? && SuffixMatches(lib.lower(host), SuffixOf(lib, raw).value)
  {
    hide TrimSpace;
    var line := TrimSpace(raw);
    if line != "" {
      assert HasPrefix(line, "#") <==> line[0] == '#';
      assert HasPrefix(line, ".") <==> line[0] == '.';
    }
  }

  /** Line `k` lists the host, and neither it nor a line before it is too long. */
  ghost predicate ListedAt(lib: Library, lines: seq<string>, k: nat, host: string) {
    k < |lines| && Lists(lib, lines[k], host) && forall j :: 0 <= j <= k ==> |lines[j]| < 65536
  }

  /** `matchDomainList` on the file's lines, None when it cannot be opened: a host is found
      exactly when some line lists it and neither that nor a line before it is too long. */
  method MatchDomainList(lib: Library, host: string, file: Option<seq<string>>) returns (found: bool)
    ensures found <==> file.Some? && exists k: nat :: ListedAt(lib, file.value, k, host)
  {
    if file.None? {
      found := MatchDomains(lib, host, None);
      return;
    }
    var p := Scan(lib, file.value);
    found := MatchDomains(lib, host, Some(p));
    ListedIffSuffix(lib, p, file.value, host);
  }

  lemma {:induction false} ListedIffSuffix(lib: Library, p: Payload, lines: seq<string>, host: string)
    requires Holds(lib, p, Delivered(lines))
    ensures (exists j :: 0 <= j < |p.domainSuffixes| && SuffixMatches(lib.lower(host), p.domainSuffixes[j])) <==>
      exists k: nat :: ListedAt(lib, lines, k, host)
  {
    hide SuffixMatches, SuffixOf, CidrOf, IpOf, Delivered, Lists;
    var n := DeliveredIsFront(lines);
    var front := Delivered(lines);
    if j :| 0 <= j < |p.domainSuffixes| && SuffixMatches(lib.lower(host), p.domainSuffixes[j]) {
      assert p.domainSuffixes[j] in p.domainSuffixes;
      assert SomeLine(lib, Suffix, front, p.domainSuffixes[j]);
      var k :| 0 <= k < |front| && EntryOf(lib, Suffix, front[k]) == Some(p.domainSuffixes[j]);
      ListsIff(lib, lines[k], host);
      assert ListedAt(lib, lines, k, host);
    }
    if k: nat :| ListedAt(lib, lines, k, host) {
      ListsIff(lib, lines[k], host);
      var x := SuffixOf(lib, lines[k]).value;
      assert front[k] == lines[k] && EntryOf(lib, Suffix, front[k]) == Some(x);
      assert x in p.domainSuffixes;
    }
  }

  // ----- the machine -----

  datatype File = File(mtime: nat, lines: seq<string>)

  datatype Entry = Entry(payload: Payload, mtime: nat)

  datatype Phase =
    | Starting
    | Stated(mtime: nat)
    | Missed(mtime: nat)
    | Reading(mtime: nat, handle: seq<string>, pos: nat, soFar: Payload)
    | Scanned(mtime: nat, payload: Payload)
    | Absent
    | Hit(entry: Entry)
    | Loaded(entry: Entry)

  datatype Loader = Loader(path: string, phase: Phase)

  /** `clock` is the last mtime handed out; mtimes are never reused. */
  datatype State = State(files: map<string, File>, clock: nat, cache: map<string, Entry>, loaders: seq<Loader>)

  datatype Action = Stat | LookUp | Open | ReadLine(fromHandle: bool) | Store

  datatype Event =
    | WriteFile(path: string, lines: seq<string>)
    | RemoveFile(path: string)
    | Call(path: string)
    | By(l: nat, act: Action)

  const INIT := State(map[], 0, map[], [])

  function At(s: State, l: nat, phase: Phase): State
    requires l < |s.loaders|
  {
    s.(loaders := s.loaders[l := s.loaders[l].(phase := phase)])
  }

  /** What a read through the open handle sees: the file it opened, or what the path holds
      now, when it was written in place. */
  function Source(s: State, path: string, handle: seq<string>, fromHandle: bool): seq<string> {
    if fromHandle || path !in s.files then handle else s.files[path].lines
  }

  function Load(lib: Library, s: State, l: nat, act: Action): Option<State>
    requires l < |s.loaders|
  {
    var path := s.loaders[l].path;
    match (act, s.loaders[l].phase)
    case (Stat, Starting) =>
      Some(At(s, l, if path in s.files then Stated(s.files[path].mtime) else Absent))
    case (LookUp, Stated(m)) =>
      if path in s.cache && s.cache[path].mtime == m then Some(At(s, l, Hit(s.cache[path])))
      else Some(At(s, l, Missed(m)))
    case (Open, Missed(m)) =>
      Some(At(s, l, if path in s.files then Reading(m, s.files[path].lines, 0, EMPTY) else Absent))
    case (ReadLine(fromHandle), Reading(m, handle, pos, p)) =>
      var lines := Source(s, path, handle, fromHandle);
      if pos < |lines| && !TooLong(lines[pos]) then
        Some(At(s, l, Reading(m, handle, pos + 1, AddLine(lib, p, lines[pos]))))
      else Some(At(s, l, Scanned(m, p)))
    case (Store, Scanned(m, p)) =>
      Some(At(s.(cache := s.cache[path := Entry(p, m)]), l, Loaded(Entry(p, m))))
    case _ => None
  }

  function Step(lib: Library, s: State, e: Event): Option<State> {
    match e
    case WriteFile(path, lines) => Some(s.(files := s.files[path := File(s.clock + 1, lines)], clock := s.clock + 1))
    case RemoveFile(path) => Some(s.(files := s.files - {path}))
    case Call(path) => Some(s.(loaders := s.loaders + [Loader(path, Starting)]))
    case By(l, act) => if l < |s.loaders| then Load(lib, s, l, act) else None
  }

  ghost predicate Next(lib: Library, s: State, e: Event, t: State) {
    Step(lib, s, e) == Some(t)
  }

  ghost predicate IsRun(lib: Library, ss: seq<State>, es: seq<Event>) {
    && |ss| == |es| + 1 && ss[0] == INIT
    && forall k {:trigger es[k]} :: 0 <= k < |es| ==> Next(lib, ss[k], es[k], ss[k + 1])
  }

  // ----- coherence -----

  /** The file still has the mtime `m`. */
  predicate Unchanged(s: State, path: string, m: nat) {
    path in s.files && s.files[path].mtime == m
  }

  /** A payload recorded for mtime `m` is the file's content for as long as the file has it. */
  ghost predicate Good(lib: Library, s: State, path: string, m: nat, p: Payload) {
    m <= s.clock && (Unchanged(s, path, m) ==> p == Parse(lib, s.files[path].lines))
  }

  ghost predicate LoaderOk(lib: Library, s: State, ld: Loader) {
    match ld.phase
    case Stated(m) => m <= s.clock
    case Missed(m) => m <= s.clock
    case Reading(m, handle, pos, p) =>
      m <= s.clock && (Unchanged(s, ld.path, m) ==>
        handle == s.files[ld.path].lines && pos <= |handle| && p == Collect(lib, handle[..pos]) &&
          forall j :: 0 <= j < pos ==> !TooLong(handle[j]))
    case Scanned(m, p) => Good(lib, s, ld.path, m, p)
    case Loaded(e) => Good(lib, s, ld.path, e.mtime, e.payload)
    case _ => true
  }

  ghost predicate Inv(lib: Library, s: State) {
    && (forall path {:trigger s.files[path]} :: path in s.files ==> s.files[path].mtime <= s.clock)
    && (forall path {:trigger s.cache[path]} :: path in s.cache ==>
      Good(lib, s, path, s.cache[path].mtime, s.cache[path].payload))
    && (forall l :: 0 <= l < |s.loaders| ==> LoaderOk(lib, s, s.loaders[l]))
  }

  lemma {:induction false} FileStepKeepsInv(lib: Library, s: State, e: Event, t: State)
    requires Next(lib, s, e, t) && Inv(lib, s) && !e.By?
    ensures Inv(lib, t)
  {
    forall l | 0 <= l < |t.loaders|
      ensures LoaderOk(lib, t, t.loaders[l])
    {
      assert l < |s.loaders| ==> LoaderOk(lib, s, s.loaders[l]);
    }
  }

  lemma {:induction false} OwnStepOk(lib: Library, s: State, l: nat, act: Action, t: State)
    requires l < |s.loaders| && Load(lib, s, l, act) == Some(t) && Inv(lib, s)
    ensures LoaderOk(lib, t, t.loaders[l])
    ensures t.cache == s.cache || (s.loaders[l].phase.Scanned? &&
      t.cache == s.cache[s.loaders[l].path := Entry(s.loaders[l].phase.payload, s.loaders[l].phase.mtime)])
  {
    assert LoaderOk(lib, s, s.loaders[l]);
    if act.ReadLine? {
      ReadingOk(lib, s, l, act.fromHandle, t);
    }
  }

  /** Reading a line keeps the payload equal to the parse of the lines read so far, as long
      as the file is unchanged. */
  lemma {:induction false} ReadingOk(lib: Library, s: State, l: nat, fromHandle: bool, t: State)
    requires l < |s.loaders| && Load(lib, s, l, ReadLine(fromHandle)) == Some(t) && LoaderOk(lib, s, s.loaders[l])
    ensures LoaderOk(lib, t, t.loaders[l])
  {
    hide AddLine;
    var ld := s.loaders[l];
    var Reading(m, handle, pos, p) := ld.phase;
    if Unchanged(s, ld.path, m) {
      assert Source(s, ld.path, handle, fromHandle) == handle;
      if pos < |handle| && !TooLong(handle[pos]) {
        assert handle[..pos + 1][..pos] == handle[..pos];
      } else {
        DeliveredUpTo(handle, pos);
      }
    }
  }

  lemma {:induction false} LoadStepKeepsInv(lib: Library, s: State, l: nat, act: Action, t: State)
    requires l < |s.loaders| && Load(lib, s, l, act) == Some(t) && Inv(lib, s)
    ensures Inv(lib, t)
  {
    OwnStepOk(lib, s, l, act, t);
    assert LoaderOk(lib, s, s.loaders[l]);
    forall k | 0 <= k < |t.loaders|
      ensures LoaderOk(lib, t, t.loaders[k])
    {
      if k != l {
        assert t.loaders[k] == s.loaders[k] && LoaderOk(lib, s, s.loaders[k]);
      }
    }
  }

  lemma {:induction false} RunKeepsInv(lib: Library, ss: seq<State>, es: seq<Event>, n: nat)
    requires IsRun(lib, ss, es) && n <= |es|
    ensures Inv(lib, ss[n])
  {
    if n > 0 {
      RunKeepsInv(lib, ss, es, n - 1);
      var s, e, t := ss[n - 1], es[n - 1], ss[n];
      assert Next(lib, s, e, t);
      if e.By? {
        LoadStepKeepsInv(lib, s, e.l, e.act, t);
      } else {
        FileStepKeepsInv(lib, s, e, t);
      }
    }
  }

  /** Cache coherence over every run: a look-up that hits, while the file still has the mtime
      the loader saw, returns the parse of the file's current content, even when a slow
      loader has overwritten a newer entry meanwhile. */
  lemma {:induction false} HitIsCurrent(lib: Library, ss: seq<State>, es: seq<Event>, n: nat, l: nat)
    requires IsRun(lib, ss, es) && n < |es| && es[n] == By(l, LookUp)
    requires l < |ss[n + 1].loaders| && ss[n + 1].loaders[l].phase.Hit?
    requires l < |ss[n].loaders| && ss[n].loaders[l].phase.Stated?
    requires Unchanged(ss[n], ss[n].loaders[l].path, ss[n].loaders[l].phase.mtime)
    ensures ss[n + 1].loaders[l].phase.entry.payload == Parse(lib, ss[n].files[ss[n].loaders[l].path].lines)
  {
    RunKeepsInv(lib, ss, es, n);
    var e := es[n];
  }

  /** The same for a call that reads the file itself: what it returns is the current content
      whenever the file still has the mtime it saw. */
  lemma {:induction false} LoadIsCurrent(lib: Library, ss: seq<State>, es: seq<Event>, n: nat, l: nat)
    requires IsRun(lib, ss, es) && n <= |es| && l < |ss[n].loaders| && ss[n].loaders[l].phase.Loaded?
    requires Unchanged(ss[n], ss[n].loaders[l].path, ss[n].loaders[l].phase.entry.mtime)
    ensures ss[n].loaders[l].phase.entry.payload == Parse(lib, ss[n].files[ss[n].loaders[l].path].lines)
  {
    RunKeepsInv(lib, ss, es, n);
    assert LoaderOk(lib, ss[n], ss[n].loaders[l]);
  }

  // ----- the cache and its history -----

  /** Step `k` puts an entry for the path into the cache. */
  ghost predicate StoresAt(ss: seq<State>, es: seq<Event>, k: nat, path: string)
    requires k < |es| < |ss|
  {
    && es[k].By? && es[k].act.Store? && es[k].l < |ss[k].loaders|
    && ss[k].loaders[es[k].l].path == path && ss[k].loaders[es[k].l].phase.Scanned?
  }

  lemma {:induction false} LoadCache(lib: Library, s: State, l: nat, act: Action, t: State)
    requires l < |s.loaders| && Load(lib, s, l, act) == Some(t)
    ensures act.Store? ==> s.loaders[l].phase.Scanned?
    ensures act.Store? ==>
      t.cache == s.cache[s.loaders[l].path := Entry(s.loaders[l].phase.payload, s.loaders[l].phase.mtime)]
    ensures !act.Store? ==> t.cache == s.cache
  {
    hide AddLine;
  }

  /** In every state of every run the cache holds for each path what was stored last for it, at step
      `k` - 1, under the time stamp its loader had read; where `k` is 0 nothing was ever stored. */
  lemma {:induction false} CacheIsLastStore(lib: Library, ss: seq<State>, es: seq<Event>, n: nat, path: string)
    returns (k: nat)
    requires IsRun(lib, ss, es) && n <= |es|
    ensures k <= n && forall j :: k <= j < n ==> !StoresAt(ss, es, j, path)
    ensures k == 0 ==> path !in ss[n].cache
    ensures k > 0 ==>
      && StoresAt(ss, es, k - 1, path) && path in ss[n].cache
      && var read := ss[k - 1].loaders[es[k - 1].l].phase; ss[n].cache[path] == Entry(read.payload, read.mtime)
  {
    hide Load, Source;
    k := 0;
    if n > 0 {
      var e := es[n - 1];
      k := CacheIsLastStore(lib, ss, es, n - 1, path);
      assert Next(lib, ss[n - 1], e, ss[n]);
      if e.By? {
        LoadCache(lib, ss[n - 1], e.l, e.act, ss[n]);
      }
      if StoresAt(ss, es, n - 1, path) {
        k := n;
      }
    }
  }

  /** A look-up hits exactly when the cache has an entry for the path with the stamp that was read, and
      then it returns that entry. */
  lemma {:induction false} HitsIff(lib: Library, s: State, l: nat, t: State)
    requires Next(lib, s, By(l, LookUp), t)
    ensures l < |s.loaders| && s.loaders[l].phase.Stated? && l < |t.loaders|
    ensures var path, m := s.loaders[l].path, s.loaders[l].phase.mtime;
      && (t.loaders[l].phase.Hit? <==> path in s.cache && s.cache[path].mtime == m)
      && (t.loaders[l].phase.Hit? ==> t.loaders[l].phase.entry == s.cache[path])
  {
  }

  function StampOf(p: Phase): Option<nat> {
    match p
    case Stated(m) => Some(m)
    case Missed(m) => Some(m)
    case Reading(m, _, _, _) => Some(m)
    case Scanned(m, _) => Some(m)
    case Hit(e) => Some(e.mtime)
    case Loaded(e) => Some(e.mtime)
    case _ => None
  }

  lemma {:induction false} LoadStamp(lib: Library, s: State, l: nat, act: Action, t: State)
    requires l < |s.loaders| && Load(lib, s, l, act) == Some(t)
    ensures t.loaders == s.loaders[l := t.loaders[l]] && t.loaders[l].path == s.loaders[l].path
    ensures !act.Stat? && StampOf(t.loaders[l].phase).Some? ==>
      StampOf(t.loaders[l].phase) == StampOf(s.loaders[l].phase)
    ensures act.Stat? && StampOf(t.loaders[l].phase).Some? ==>
      var path := s.loaders[l].path;
      path in s.files && StampOf(t.loaders[l].phase) == Some(s.files[path].mtime)
  {
    hide AddLine;
  }

  /** Whatever a call finds or stores carries the time stamp its own stat read, at step `k`, even when
      the file is a newer one by the time it is opened. */
  lemma {:induction false} StampIsStats(lib: Library, ss: seq<State>, es: seq<Event>, n: nat, l: nat)
    returns (k: nat)
    requires IsRun(lib, ss, es) && n <= |es| && l < |ss[n].loaders| && StampOf(ss[n].loaders[l].phase).Some?
    ensures k < n && es[k] == By(l, Stat)
    ensures var path := ss[n].loaders[l].path;
      path in ss[k].files && StampOf(ss[n].loaders[l].phase) == Some(ss[k].files[path].mtime)
  {
    hide Load, Source;
    assert n > 0;
    var s, e, t := ss[n - 1], es[n - 1], ss[n];
    assert Next(lib, s, e, t);
    if e.By? {
      LoadStamp(lib, s, e.l, e.act, t);
    }
    if e == By(l, Stat) {
      k := n - 1;
    } else {
      k := StampIsStats(lib, ss, es, n - 1, l);
    }
  }

  predicate IsDone(p: Phase) {
    p.Absent? || p.Hit? || p.Loaded?
  }

  /** A call that is not done can always take its next step. It ends without a list exactly when the
      file is missing as it is asked for its stamp or opened, and with one that it hits, or stores. */
  lemma {:induction false} LoaderCanMove(lib: Library, s: State, l: nat) returns (act: Action)
    requires l < |s.loaders| && !IsDone(s.loaders[l].phase)
    ensures Load(lib, s, l, act).Some? && |Load(lib, s, l, act).value.loaders| == |s.loaders|
    ensures var now := Load(lib, s, l, act).value.loaders[l].phase;
      && (now.Absent? <==> (act.Stat? || act.Open?) && s.loaders[l].path !in s.files)
      && (now.Hit? ==> act.LookUp?)
      && (now.Loaded? <==> act.Store?)
  {
    hide AddLine;
    match s.loaders[l].phase
    case Starting => act := Stat;
    case Stated(_) => act := LookUp;
    case Missed(_) => act := Open;
    case Reading(_, _, _, _) => act := ReadLine(true);
    case Scanned(_, _) => act := Store;
    case _ =>
  }

  /** One read takes the next line, of the content that was opened or of what the file holds by now,
      and both can happen; it is over at the end or at a line that is too long. */
  lemma {:induction false} ReadsEither(lib: Library, s: State, l: nat, fromHandle: bool, t: State)
    requires Next(lib, s, By(l, ReadLine(fromHandle)), t)
    ensures l < |s.loaders| && s.loaders[l].phase.Reading? && l < |t.loaders|
    ensures var path, was := s.loaders[l].path, s.loaders[l].phase;
      var lines := if !fromHandle && path in s.files then s.files[path].lines else was.handle;
      t.loaders[l].phase ==
        if was.pos < |lines| && |lines[was.pos]| < 65536
        then was.(pos := was.pos + 1, soFar := AddLine(lib, was.soFar, lines[was.pos]))
        else Scanned(was.mtime, was.soFar)
  {
    hide AddLine;
  }

  // ----- when the file changes during a call -----

  const PLAIN := Library((s: string) => None, (s: string) => None, (s: string) => s)

  lemma {:induction false} OneDomain(line: string)
    requires line == "a" || line == "b" || line == "c"
    ensures Parse(PLAIN, [line]) == AddLine(PLAIN, EMPTY, line) == Payload([line], [], {})
  {
    assert TrimSpace(line) == line;
    DeliveredUpTo([line], 1);
    assert [line][..1] == [line] && [line][..0] == [];
    assert Collect(PLAIN, [line]) == AddLine(PLAIN, EMPTY, line);
  }

  /** Extends a run by one step to the state `t`, given field by field. */
  lemma {:induction false} Do(lib: Library, ss: seq<State>, es: seq<Event>, e: Event, t: State)
    returns (ss': seq<State>, es': seq<Event>)
    requires IsRun(lib, ss, es)
    requires Step(lib, ss[|es|], e).Some?
    requires var r := Step(lib, ss[|es|], e).value;
      r.files == t.files && r.clock == t.clock && r.cache == t.cache && r.loaders == t.loaders
    ensures IsRun(lib, ss', es') && ss' == ss + [t] && es' == es + [e] && ss'[|es'|] == t
  {
    ss', es' := ss + [t], es + [e];
    assert Next(lib, ss[|es|], e, t);
    forall k {:trigger es'[k]} | 0 <= k < |es'|
      ensures Next(lib, ss'[k], es'[k], ss'[k + 1])
    {
      if k < |es| {
        assert es'[k] == es[k];
      }
    }
  }

  /** A loader stats, misses and opens the file; a second one stats it. */
  lemma {:induction false} SlowLoader(p: string) returns (ss: seq<State>, es: seq<Event>)
    ensures IsRun(PLAIN, ss, es) && |es| == 7 && es[6] == By(1, Stat) && ss[6].files == map[p := File(1, ["a"])]
    ensures ss[7] == State(map[p := File(1, ["a"])], 1, map[],
      [Loader(p, Reading(1, ["a"], 0, EMPTY)), Loader(p, Stated(1))])
  {
    hide IsRun, AddLine, Parse;
    var f := map[p := File(1, ["a"])];
    var slow := Loader(p, Reading(1, ["a"], 0, EMPTY));
    ss, es := [INIT], [];
    ss, es := Do(PLAIN, ss, es, WriteFile(p, ["a"]), State(f, 1, map[], []));
    ss, es := Do(PLAIN, ss, es, Call(p), State(f, 1, map[], [Loader(p, Starting)]));
    ss, es := Do(PLAIN, ss, es, By(0, Stat), State(f, 1, map[], [Loader(p, Stated(1))]));
    ss, es := Do(PLAIN, ss, es, By(0, LookUp), State(f, 1, map[], [Loader(p, Missed(1))]));
    ss, es := Do(PLAIN, ss, es, By(0, Open), State(f, 1, map[], [slow]));
    ss, es := Do(PLAIN, ss, es, Call(p), State(f, 1, map[], [slow, Loader(p, Starting)]));
    ss, es := Do(PLAIN, ss, es, By(1, Stat), State(f, 1, map[], [slow, Loader(p, Stated(1))]));
  }

  /** The file is rewritten; the first loader reads the new line and stores it under the old
      mtime. */
  lemma {:induction false} SlowStore(p: string, b: Payload) returns (ss: seq<State>, es: seq<Event>)
    requires b == AddLine(PLAIN, EMPTY, "b")
    ensures IsRun(PLAIN, ss, es) && |es| == 11 && es[6] == By(1, Stat) && ss[6].files == map[p := File(1, ["a"])]
    ensures ss[11] == State(map[p := File(2, ["b"])], 2, map[p := Entry(b, 1)],
      [Loader(p, Loaded(Entry(b, 1))), Loader(p, Stated(1))])
  {
    hide IsRun, AddLine, Parse;
    var f := map[p := File(2, ["b"])];
    var waiting := Loader(p, Stated(1));
    ss, es := SlowLoader(p);
    ss, es := Do(PLAIN, ss, es, WriteFile(p, ["b"]),
      State(f, 2, map[], [Loader(p, Reading(1, ["a"], 0, EMPTY)), waiting]));
    ss, es := Do(PLAIN, ss, es, By(0, ReadLine(false)),
      State(f, 2, map[], [Loader(p, Reading(1, ["a"], 1, b)), waiting]));
    ss, es := Do(PLAIN, ss, es, By(0, ReadLine(false)), State(f, 2, map[], [Loader(p, Scanned(1, b)), waiting]));
    ss, es := Do(PLAIN, ss, es, By(0, Store),
      State(f, 2, map[p := Entry(b, 1)], [Loader(p, Loaded(Entry(b, 1))), waiting]));
  }

  /** Without the condition the claim is false: when the file is rewritten between a loader's
      stat and its look-up, the hit can be neither what the file held at the stat ("a") nor
      what it holds at the look-up ("c"), but what a slower loader happened to read ("b"). */
  lemma {:induction false} StaleHit(p: string) returns (ss: seq<State>, es: seq<Event>)
    ensures IsRun(PLAIN, ss, es) && |es| == 13
    ensures es[6] == By(1, Stat) && p in ss[6].files && ss[6].files[p].lines == ["a"]
    ensures es[12] == By(1, LookUp) && p in ss[12].files && ss[12].files[p].lines == ["c"]
    ensures |ss[13].loaders| == 2 && ss[13].loaders[1].phase == Hit(Entry(Parse(PLAIN, ["b"]), 1))
    ensures Parse(PLAIN, ["b"]) != Parse(PLAIN, ["a"]) && Parse(PLAIN, ["b"]) != Parse(PLAIN, ["c"])
  {
    hide IsRun, AddLine, Parse;
    OneDomain("a");
    OneDomain("b");
    OneDomain("c");
    var b := Parse(PLAIN, ["b"]);
    assert b.domainSuffixes[0] == "b";
    var f, stored := map[p := File(3, ["c"])], map[p := Entry(b, 1)];
    var loaded := Loader(p, Loaded(Entry(b, 1)));
    ss, es := SlowStore(p, b);
    ss, es := Do(PLAIN, ss, es, WriteFile(p, ["c"]), State(f, 3, stored, [loaded, Loader(p, Stated(1))]));
    ss, es := Do(PLAIN, ss, es, By(1, LookUp), State(f, 3, stored, [loaded, Loader(p, Hit(Entry(b, 1)))]));
  }
}
