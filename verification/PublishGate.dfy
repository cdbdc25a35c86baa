/** The gate a waveform publish passes, tools/publish_waves.py: reading git's
    status output, and settling the tag and the commit to record.  What git
    answers is an input. */
module PublishGate {
  import opened Text
  import opened ReleaseTags

  // ---------------------------------------------------------------------
  // git status --porcelain=v1 -z
  // ---------------------------------------------------------------------

  datatype Entry = Entry(xy: string, path: string)

  const NUL := '\0'

  /** Whether a status entry is followed by the path it was renamed or copied from,
      as status_entries decides it: by the first status letter. */
  predicate TakesSource(xy: string)
    requires xy != []
  {
    xy[0] == 'R' || xy[0] == 'C'
  }

  function EntriesOf(fields: seq<string>): seq<Entry> {
    if fields == [] then []
    else if |fields[0]| < 4 then EntriesOf(fields[1..])
    else
      var xy := fields[0][..2];
      [Entry(xy, fields[0][3..])] +
      if TakesSource(xy) && |fields| > 1 then [Entry(xy, fields[1])] + EntriesOf(fields[2..])
      else EntriesOf(fields[1..])
  }

  method StatusEntries(out: string) returns (entries: seq<Entry>)
    ensures entries == EntriesOf(Split(out, NUL))
  {
    var fields := Split(out, NUL);
    entries := [];
    var i := 0;
    assert fields[0..] == fields;
    while i < |fields|
      invariant 0 <= i <= |fields|
      invariant entries + EntriesOf(fields[i..]) == EntriesOf(fields)
    {
      ghost var rest := fields[i..];
      ghost var before := entries;
      var f := fields[i];
      i := i + 1;
      assert fields[i..] == rest[1..];
      if |f| < 4 {
        continue;
      }
      var xy := f[..2];
      entries := entries + [Entry(xy, f[3..])];
      if TakesSource(xy) && i < |fields| {
        entries := entries + [Entry(xy, fields[i])];
        i := i + 1;
        assert fields[i..] == rest[2..];
        assert entries == before + [Entry(xy, f[3..]), Entry(xy, rest[1])];
      }
    }
    assert EntriesOf(fields[i..]) == [];
  }

  /** Whether git writes the source of a change after its path: for a first letter R
      or C. */
  predicate HasSource(xy: string) {
    xy != "" && xy[0] in {'R', 'C'}
  }

  /** A change git reports: its two status letters, its path, and where it came from. */
  datatype Report = Report(xy: string, path: string, source: Option<string>)

  /** git's format: two letters, a path, a source after every X of R or C. */
  predicate WellFormed(r: Report) {
    && |r.xy| == 2 && NUL !in r.xy
    && r.path != "" && NUL !in r.path
    && (HasSource(r.xy) ==> r.source.Some?)
    && (r.source.Some? ==> r.source.value != "" && NUL !in r.source.value)
  }

  predicate AllWellFormed(reports: seq<Report>) {
    forall k :: 0 <= k < |reports| ==> WellFormed(reports[k])
  }

  function FieldsOf(r: Report): seq<string> {
    [r.xy + " " + r.path] + if r.source.Some? then [r.source.value] else []
  }

  function AllFields(reports: seq<Report>): (fields: seq<string>) {
    if reports == [] then [] else FieldsOf(reports[0]) + AllFields(reports[1..])
  }

  /** The bytes git writes: each field ended by a NUL. */
  function Porcelain(reports: seq<Report>): string {
    Join(AllFields(reports) + [""], NUL)
  }

  /** The changed paths, rename sources included. */
  function PathsOf(reports: seq<Report>): seq<Entry> {
    if reports == [] then [] else
      [Entry(reports[0].xy, reports[0].path)] +
      (if reports[0].source.Some? then [Entry(reports[0].xy, reports[0].source.value)] else []) +
      PathsOf(reports[1..])
  }

  lemma {:induction false} FieldsHaveNoNul(reports: seq<Report>)
    requires AllWellFormed(reports)
    ensures forall k :: 0 <= k < |AllFields(reports)| ==> NUL !in AllFields(reports)[k]
    decreases |reports|
  {
    if reports != [] {
      FieldsHaveNoNul(reports[1..]);
      assert WellFormed(reports[0]);
    }
  }

  /** What is read from one report's fields and the fields after them. */
  lemma EntriesOfReport(r: Report, rest: seq<string>)
    requires WellFormed(r)
    ensures EntriesOf(FieldsOf(r) + rest) ==
      [Entry(r.xy, r.path)] +
      (if r.source.None? then EntriesOf(rest)
       else if TakesSource(r.xy) then [Entry(r.xy, r.source.value)] + EntriesOf(rest)
       else if |r.source.value| < 4 then EntriesOf(rest)
       else EntriesOf([r.source.value] + rest))
  {
    var head := r.xy + " " + r.path;
    assert head[..2] == r.xy && head[3..] == r.path;
    var fields := FieldsOf(r) + rest;
    assert fields[0] == head;
    if r.source.Some? {
      assert fields[1..] == [r.source.value] + rest;
      assert fields[2..] == rest;
      assert ([r.source.value] + rest)[1..] == rest;
    } else {
      assert fields[1..] == rest;
    }
  }

  /** The reports the reader understands: every source is announced by X. */
  predicate SourcesAnnounced(reports: seq<Report>)
    requires AllWellFormed(reports)
  {
    forall k :: 0 <= k < |reports| ==> reports[k].source.Some? ==> HasSource(reports[k].xy)
  }

  /** Every field gives at most one entry, and the empty field after the last NUL
      gives one only by being taken for a source. */
  lemma {:induction false} EntriesCounted(fields: seq<string>)
    requires fields != [] && fields[|fields| - 1] == ""
    ensures |EntriesOf(fields)| < |fields| || exists e :: e in EntriesOf(fields) && e.path == ""
    ensures |EntriesOf(fields)| <= |fields|
    decreases |fields|
  {
    if |fields| > 1 {
      EntriesCounted(fields[1..]);
      if |fields[0]| >= 4 {
        var xy := fields[0][..2];
        if TakesSource(xy) {
          if |fields| == 2 {
            assert EntriesOf(fields)[1] == Entry(xy, "");
          } else {
            EntriesCounted(fields[2..]);
            assert forall e :: e in EntriesOf(fields[2..]) ==> e in EntriesOf(fields);
          }
        } else {
          assert forall e :: e in EntriesOf(fields[1..]) ==> e in EntriesOf(fields);
        }
      }
    }
  }

  lemma {:induction false} PathsCounted(reports: seq<Report>)
    requires AllWellFormed(reports)
    ensures |PathsOf(reports)| == |AllFields(reports)|
    ensures forall e :: e in PathsOf(reports) ==> e.path != ""
    decreases |reports|
  {
    if reports != [] {
      assert WellFormed(reports[0]);
      PathsCounted(reports[1..]);
    }
  }

  /** A source X does not announce is skipped when short, and otherwise read as an
      entry of its own with its first three characters cut off; either way the
      paths are not all read. */
  lemma MisreadSource(r: Report, rest: seq<Report>)
    requires WellFormed(r) && r.source.Some? && !HasSource(r.xy) && AllWellFormed(rest)
    ensures EntriesOf(FieldsOf(r) + (AllFields(rest) + [""])) != PathsOf([r] + rest)
  {
    var after := AllFields(rest) + [""];
    assert ([r] + rest)[1..] == rest;
    assert PathsOf([r] + rest) == [Entry(r.xy, r.path), Entry(r.xy, r.source.value)] + PathsOf(rest);
    if |r.source.value| < 4 {
      ShortSourceLost(r, rest);
    } else {
      EntriesOfReport(r, after);
      assert EntriesOf(FieldsOf(r) + after)[1].path == r.source.value[3..];
    }
  }

  /** A short source is passed over, so a path is missing. */
  lemma ShortSourceLost(r: Report, rest: seq<Report>)
    requires WellFormed(r) && r.source.Some? && !HasSource(r.xy) && |r.source.value| < 4 && AllWellFormed(rest)
    ensures EntriesOf(FieldsOf(r) + (AllFields(rest) + [""])) !=
            [Entry(r.xy, r.path), Entry(r.xy, r.source.value)] + PathsOf(rest)
  {
    var after := AllFields(rest) + [""];
    var read, paths := EntriesOf(after), PathsOf(rest);
    EntriesOfReport(r, after);
    EntriesCounted(after);
    PathsCounted(rest);
    if |read| == |after| {
      var e :| e in read && e.path == "";
      assert e in [Entry(r.xy, r.path)] + read;
      assert e !in [Entry(r.xy, r.path), Entry(r.xy, r.source.value)] + paths;
    }
  }

  lemma {:induction false} ReadBackFields(reports: seq<Report>)
    requires AllWellFormed(reports)
    ensures EntriesOf(AllFields(reports) + [""]) == PathsOf(reports) <==> SourcesAnnounced(reports)
    decreases |reports|
  {
    if reports == [] {
      assert AllFields(reports) + [""] == [""];
    } else {
      var r, rest := reports[0], reports[1..];
      var after := AllFields(rest) + [""];
      assert WellFormed(r) && reports == [r] + rest;
      assert AllFields(reports) + [""] == FieldsOf(r) + after;
      ReadBackFields(rest);
      if r.source.Some? && !HasSource(r.xy) {
        MisreadSource(r, rest);
      } else {
        ReportReadBack(r, after, rest);
        assert SourcesAnnounced(reports) <==> SourcesAnnounced(rest);
      }
    }
  }

  /** A report whose source is announced is read whole. */
  lemma ReportReadBack(r: Report, after: seq<string>, rest: seq<Report>)
    requires WellFormed(r) && (r.source.Some? ==> HasSource(r.xy))
    ensures EntriesOf(FieldsOf(r) + after) == PathsOf([r] + rest) <==> EntriesOf(after) == PathsOf(rest)
  {
    EntriesOfReport(r, after);
    assert ([r] + rest)[1..] == rest;
    var mine := [Entry(r.xy, r.path)] + if r.source.Some? then [Entry(r.xy, r.source.value)] else [];
    SamePrefix(mine, EntriesOf(after), PathsOf(rest));
    assert EntriesOf(FieldsOf(r) + after) == mine + EntriesOf(after);
    assert PathsOf([r] + rest) == mine + PathsOf(rest);
  }

  lemma SamePrefix<T>(p: seq<T>, a: seq<T>, b: seq<T>)
    ensures p + a == p + b <==> a == b
  {
    assert a == (p + a)[|p|..] && b == (p + b)[|p|..];
  }

  /** Main result: the entries read from git's output are exactly the reported paths,
      rename sources included, if and only if no report carries a source that its
      first status letter does not announce. */
  lemma StatusReadsBack(reports: seq<Report>)
    requires AllWellFormed(reports)
    ensures EntriesOf(Split(Porcelain(reports), NUL)) == PathsOf(reports) <==> SourcesAnnounced(reports)
  {
    FieldsHaveNoNul(reports);
    SplitOfJoin(AllFields(reports) + [""], NUL);
    ReadBackFields(reports);
  }

  // ---------------------------------------------------------------------
  // The gate
  // ---------------------------------------------------------------------

  const GUARDED: seq<string> := ["rtl/", "examples/fe_demo/"]

  const UNTAGGED := "untagged"

  predicate Guarded(path: string) {
    StartsWith(path, GUARDED[0]) || StartsWith(path, GUARDED[1])
  }

  datatype Tag = Lightweight(commit: string) | Annotated(commit: string)

  /** git's answers: HEAD's commit, the tags, the fe-* tags that for-each-ref lists at
      HEAD, and the raw status output. */
  datatype Repo = Repo(head: Option<string>, tags: map<string, Tag>, atHead: seq<string>, status: string)

  /** for-each-ref --points-at HEAD lists, of the release names, exactly the tags that
      name HEAD; of other names it lists those its pattern matches. */
  ghost predicate ListsHeadTags(repo: Repo) {
    forall name :: ParseTag(name).Some? ==>
      (name in repo.atHead <==> name in repo.tags && Some(repo.tags[name].commit) == repo.head)
  }

  datatype Args = Args(tag: Option<string>, commit: Option<string>, untagged: bool, dryRun: bool)

  datatype Refusal =
    | NotAReleaseTag | NotASha | TwoTags | NoHead | NoSuchTag | NotHead | DirtyTree
    | CommitWithoutTag | LightweightTag | TagElsewhere | NoTagAtHead

  datatype Decision = Record(tag: string, commit: string) | Refuse(reason: Refusal)

  predicate IsSha(s: string) {
    |s| == 40 && forall k :: 0 <= k < |s| ==> CharDigit(s[k]) < 16
  }

  predicate Clean(status: string) {
    forall k :: 0 <= k < |EntriesOf(Split(status, NUL))| ==> !Guarded(EntriesOf(Split(status, NUL))[k].path)
  }

  /** check_tree: a publish refuses a change in a guarded directory, a dry run only warns. */
  function CheckTree(repo: Repo, publish: bool): Option<Refusal> {
    if publish && !Clean(repo.status) then Some(DirtyTree) else None
  }

  function CheckGiven(given: Option<string>, head: string): Option<Refusal> {
    if given.Some? && given.value != head then Some(NotHead) else None
  }

  function AnnotatedReleases(names: seq<string>, tags: map<string, Tag>): (r: seq<string>)
    ensures forall n :: n in r <==> n in names && n in tags && tags[n].Annotated? && ParseTag(n).Some?
  {
    if names == [] then [] else
    var rest := AnnotatedReleases(names[1..], tags);
    if names[0] in tags && tags[names[0]].Annotated? && ParseTag(names[0]).Some? then [names[0]] + rest else rest
  }

  function LookupHeadTag(repo: Repo, publish: bool): Decision {
    if repo.head.None? then Refuse(NoHead) else
    var annotated := AnnotatedReleases(repo.atHead, repo.tags);
    var latest := LatestTag(annotated);
    if latest.None? then Refuse(NoTagAtHead) else
    match CheckTree(repo, publish)
    case Some(refusal) => Refuse(refusal)
    case None => Record(latest.value, repo.head.value)
  }

  function LookupTag(repo: Repo, tag: string, publish: bool, given: Option<string>): Decision {
    if tag !in repo.tags then Refuse(NoSuchTag)
    else if repo.tags[tag].Lightweight? then Refuse(LightweightTag)
    else if repo.head.None? then Refuse(NoHead)
    else
      var commit, head := repo.tags[tag].commit, repo.head.value;
      match CheckGiven(given, head)
      case Some(refusal) => Refuse(refusal)
      case None =>
        if head != commit then Refuse(TagElsewhere)
        else
          match CheckTree(repo, publish)
          case Some(refusal) => Refuse(refusal)
          case None => Record(tag, commit)
  }

  function Resolve(args: Args, repo: Repo): Decision {
    if args.tag.Some? && ParseTag(args.tag.value).None? then Refuse(NotAReleaseTag)
    else if args.commit.Some? && !IsSha(args.commit.value) then Refuse(NotASha)
    else if args.untagged && args.tag.Some? then Refuse(TwoTags)
    else
      var publish := !args.dryRun;
      if args.untagged then
        if args.commit.Some? && !publish then Record(UNTAGGED, args.commit.value)
        else if repo.head.None? then Refuse(NoHead)
        else
          match CheckGiven(args.commit, repo.head.value)
          case Some(refusal) => Refuse(refusal)
          case None =>
            match CheckTree(repo, publish)
            case Some(refusal) => Refuse(refusal)
            case None => Record(UNTAGGED, repo.head.value)
      else if args.tag.Some? && args.commit.Some? && !publish then Record(args.tag.value, args.commit.value)
      else if args.tag.None? && args.commit.Some? then Refuse(CommitWithoutTag)
      else if args.tag.Some? then LookupTag(repo, args.tag.value, publish, args.commit)
      else LookupHeadTag(repo, publish)
  }

  // ---------------------------------------------------------------------
  // What a publish may record
  // ---------------------------------------------------------------------

  /** A release of HEAD: an annotated release tag that names it. */
  ghost predicate ReleasesHead(repo: Repo, tag: string) {
    && ParseTag(tag).Some? && tag in repo.tags
    && repo.tags[tag].Annotated? && Some(repo.tags[tag].commit) == repo.head
  }

  /** The highest release of HEAD. */
  ghost predicate HighestAtHead(repo: Repo, tag: string) {
    && ReleasesHead(repo, tag)
    && forall other :: ReleasesHead(repo, other) && other != tag ==>
         Older(ParseTag(other).value, ParseTag(tag).value)
  }

  /** The records the release rules allow for these arguments in this repository. */
  ghost predicate MayRecord(args: Args, repo: Repo, tag: string, commit: string) {
    && repo.head == Some(commit)
    && Clean(repo.status)
    && (args.commit.Some? ==> args.commit.value == commit && IsSha(commit) && (args.untagged || args.tag.Some?))
    && (if args.untagged then args.tag.None? && tag == "untagged"
        else if args.tag.Some? then tag == args.tag.value && ReleasesHead(repo, tag)
        else HighestAtHead(repo, tag))
  }

  lemma HeadTagIsHighest(repo: Repo, tag: string)
    requires ListsHeadTags(repo) && repo.head.Some?
    ensures LatestTag(AnnotatedReleases(repo.atHead, repo.tags)) == Some(tag) <==> HighestAtHead(repo, tag)
  {
    var annotated := AnnotatedReleases(repo.atHead, repo.tags);
    forall n
      ensures n in annotated <==> ReleasesHead(repo, n)
    {
    }
    LatestIsLatest(annotated);
    if HighestAtHead(repo, tag) {
      assert IsLatest(Names(annotated), Some(tag));
      LatestIsUnique(annotated, annotated);
    }
  }

  /** Main result: for any arguments, repository and status output, a publish gets
      past the gate exactly with the records the release rules allow: HEAD, nothing
      changed under the guarded directories, and "untagged" or an annotated release
      tag naming HEAD, the highest when none was given. */
  lemma PublishRecords(args: Args, repo: Repo, tag: string, commit: string)
    requires !args.dryRun && ListsHeadTags(repo)
    ensures Resolve(args, repo) == Record(tag, commit) <==> MayRecord(args, repo, tag, commit)
  {
    if args.untagged {
    } else if args.tag.Some? {
      if ParseTag(args.tag.value).Some? {
        GivenTagRecords(repo, args.tag.value, args.commit, tag, commit);
      }
    } else {
      HeadTagRecords(repo, tag, commit);
    }
  }

  /** The records a dry run makes: a given commit is taken as it is, with the given tag
      or the override; without one the tag names HEAD as it must for a publish. */
  ghost predicate MayTry(args: Args, repo: Repo, tag: string, commit: string) {
    && (args.commit.Some? ==> |commit| == 40 && IsHex(commit) && commit == args.commit.value)
    && (args.commit.None? ==> repo.head == Some(commit))
    && (if args.untagged then args.tag.None? && tag == "untagged"
        else if args.tag.Some? then
          tag == args.tag.value && ParseTag(tag).Some? && (args.commit.None? ==> ReleasesHead(repo, tag))
        else args.commit.None? && HighestAtHead(repo, tag))
  }

  /** Lower-case hexadecimal digits. */
  predicate IsHex(s: string) {
    forall k :: 0 <= k < |s| ==> s[k] in "0123456789abcdef"
  }

  lemma ShaIsHex(s: string)
    ensures IsSha(s) <==> |s| == 40 && IsHex(s)
  {
    forall k | 0 <= k < |s|
      ensures CharDigit(s[k]) < 16 <==> s[k] in "0123456789abcdef"
    {
      HexDigit(s[k]);
    }
  }

  lemma HexDigit(c: char)
    ensures CharDigit(c) < 16 <==> c in "0123456789abcdef"
  {
    if CharDigit(c) < 16 {
      assert DigitChar(CharDigit(c)) == c;
    }
  }

  /** Main result: for any arguments and repository, what a dry run records. */
  lemma DryRunRecords(args: Args, repo: Repo, tag: string, commit: string)
    requires args.dryRun && ListsHeadTags(repo)
    ensures Resolve(args, repo) == Record(tag, commit) <==> MayTry(args, repo, tag, commit)
  {
    if args.commit.Some? {
      ShaIsHex(args.commit.value);
    } else if !args.untagged {
      if args.tag.Some? {
        TriedTag(repo, args.tag.value, tag, commit);
      } else {
        TriedHeadTag(repo, tag, commit);
      }
    }
  }

  lemma TriedTag(repo: Repo, given: string, tag: string, commit: string)
    ensures ParseTag(given).Some? ==>
      (LookupTag(repo, given, false, None) == Record(tag, commit) <==>
        tag == given && ReleasesHead(repo, tag) && repo.head == Some(commit))
  {
  }

  lemma TriedHeadTag(repo: Repo, tag: string, commit: string)
    requires ListsHeadTags(repo)
    ensures LookupHeadTag(repo, false) == Record(tag, commit) <==>
      repo.head == Some(commit) && HighestAtHead(repo, tag)
  {
    if repo.head.Some? {
      HeadTagIsHighest(repo, tag);
    }
  }

  /** What a refusal says is so. */
  ghost predicate IsTrue(reason: Refusal, args: Args, repo: Repo) {
    match reason
    case NotAReleaseTag => args.tag.Some? && forall v :: args.tag.value != PrintTag(v)
    case NotASha => args.commit.Some? && !(|args.commit.value| == 40 && IsHex(args.commit.value))
    case TwoTags => args.untagged && args.tag.Some?
    case CommitWithoutTag => !args.untagged && args.commit.Some? && args.tag.None?
    case NoHead => repo.head.None?
    case NoSuchTag => args.tag.Some? && args.tag.value !in repo.tags
    case LightweightTag => args.tag.Some? && args.tag.value in repo.tags && repo.tags[args.tag.value].Lightweight?
    case TagElsewhere =>
      && args.tag.Some? && args.tag.value in repo.tags
      && repo.head.Some? && repo.tags[args.tag.value].commit != repo.head.value
    case NotHead => args.commit.Some? && repo.head.Some? && args.commit.value != repo.head.value
    case DirtyTree => !args.dryRun && !Clean(repo.status)
    case NoTagAtHead => args.tag.None? && forall tag :: !ReleasesHead(repo, tag)
  }

  /** Main result: whatever is refused is refused for a true reason. */
  lemma RefusedRightly(args: Args, repo: Repo)
    requires ListsHeadTags(repo) && Resolve(args, repo).Refuse?
    ensures IsTrue(Resolve(args, repo).reason, args, repo)
  {
    if args.tag.Some? && ParseTag(args.tag.value).None? {
      NoRelease(args.tag.value);
    } else if args.commit.Some? && !IsSha(args.commit.value) {
      ShaIsHex(args.commit.value);
    } else if !args.untagged {
      if args.tag.Some? && (args.commit.None? || !args.dryRun) {
        TagRefusedRightly(args, repo);
      } else if args.tag.None? && args.commit.None? {
        HeadTagRefusedRightly(args, repo);
      }
    }
  }

  lemma NoRelease(name: string)
    requires ParseTag(name).None?
    ensures forall v :: name != PrintTag(v)
  {
    forall v
      ensures name != PrintTag(v)
    {
      TagsAreVersions(name, v);
    }
  }

  lemma TagRefusedRightly(args: Args, repo: Repo)
    requires args.tag.Some?
    ensures var d := LookupTag(repo, args.tag.value, !args.dryRun, args.commit);
      d.Refuse? ==> IsTrue(d.reason, args, repo)
  {
  }

  lemma HeadTagRefusedRightly(args: Args, repo: Repo)
    requires ListsHeadTags(repo) && args.tag.None?
    ensures var d := LookupHeadTag(repo, !args.dryRun); d.Refuse? ==> IsTrue(d.reason, args, repo)
  {
    if repo.head.Some? {
      NoneAtHead(repo);
    }
  }

  lemma NoneAtHead(repo: Repo)
    requires ListsHeadTags(repo) && repo.head.Some?
    ensures LatestTag(AnnotatedReleases(repo.atHead, repo.tags)).None? ==> forall tag :: !ReleasesHead(repo, tag)
  {
    var annotated := AnnotatedReleases(repo.atHead, repo.tags);
    LatestIsLatest(annotated);
    if LatestTag(annotated).None? {
      forall tag
        ensures !ReleasesHead(repo, tag)
      {
        assert ReleasesHead(repo, tag) ==> tag in Names(annotated);
      }
    }
  }

  /** The directories no published change may touch. */
  lemma GuardedDirectories(rest: string)
    ensures Guarded("rtl/" + rest) && Guarded("examples/fe_demo/" + rest)
    ensures !Guarded("docs/" + rest)
  {
    var rtl, demo, docs := "rtl/" + rest, "examples/fe_demo/" + rest, "docs/" + rest;
    assert rtl[..4] == "rtl/" && demo[..17] == "examples/fe_demo/";
    assert docs[0] == 'd' && GUARDED[0][0] == 'r' && GUARDED[1][0] == 'e';
    assert |docs| >= 4 ==> docs[..4][0] == 'd';
    assert |docs| >= 17 ==> docs[..17][0] == 'd';
  }

  lemma GivenTagRecords(repo: Repo, given: string, commitArg: Option<string>, tag: string, commit: string)
    requires ParseTag(given).Some?
    ensures LookupTag(repo, given, true, commitArg) == Record(tag, commit) <==>
      && repo.head == Some(commit) && Clean(repo.status)
      && (commitArg.Some? ==> commitArg.value == commit)
      && tag == given && ReleasesHead(repo, tag)
  {
  }

  lemma HeadTagRecords(repo: Repo, tag: string, commit: string)
    requires ListsHeadTags(repo)
    ensures LookupHeadTag(repo, true) == Record(tag, commit) <==>
      repo.head == Some(commit) && Clean(repo.status) && HighestAtHead(repo, tag)
  {
    if repo.head.Some? {
      HeadTagIsHighest(repo, tag);
    }
  }

  /** What Clean means for the changes git reports: no changed path and no rename or
      copy source is in a guarded directory. */
  lemma CleanMeansUntouched(reports: seq<Report>)
    requires AllWellFormed(reports) && SourcesAnnounced(reports)
    ensures Clean(Porcelain(reports)) <==> forall e :: e in PathsOf(reports) ==> !Guarded(e.path)
  {
    StatusReadsBack(reports);
  }

  /** Main result: a publish that is recorded has no guarded path among the changes git
      reports, rename and copy sources included, when each source is announced. */
  lemma RecordedMeansUntouched(args: Args, repo: Repo, reports: seq<Report>, tag: string, commit: string)
    requires !args.dryRun && ListsHeadTags(repo)
    requires AllWellFormed(reports) && SourcesAnnounced(reports) && repo.status == Porcelain(reports)
    requires Resolve(args, repo) == Record(tag, commit)
    ensures repo.head == Some(commit)
    ensures forall e :: e in PathsOf(reports) ==> !Guarded(e.path)
  {
    PublishRecords(args, repo, tag, commit);
    CleanMeansUntouched(reports);
  }

  predicate IsPath(path: string) {
    path != "" && NUL !in path
  }

  /** The gate lets a change with a source pass exactly when neither path is guarded. */
  predicate ReadRight(xy: string, path: string, source: string) {
    Clean(Porcelain([Report(xy, path, Some(source))])) <==> !Guarded(path) && !Guarded(source)
  }

  /** Main result: changes with a source are read right, whatever their paths, if and
      only if the first letter of their status code announces the source. */
  lemma CodesReadRight(xy: string)
    requires |xy| == 2 && NUL !in xy
    ensures (forall path, source :: IsPath(path) && IsPath(source) ==> ReadRight(xy, path, source)) <==>
            HasSource(xy)
  {
    if HasSource(xy) {
      forall path, source | IsPath(path) && IsPath(source)
        ensures ReadRight(xy, path, source)
      {
        AnnouncedReadRight(xy, path, source);
      }
    } else {
      UnannouncedReadWrong(xy);
    }
  }

  lemma UnannouncedReadWrong(xy: string)
    requires |xy| == 2 && NUL !in xy && !HasSource(xy)
    ensures IsPath("new") && IsPath("rtl/old") && !ReadRight(xy, "new", "rtl/old")
  {
    UnannouncedHidesSource(xy);
  }

  lemma AnnouncedReadRight(xy: string, path: string, source: string)
    requires |xy| == 2 && NUL !in xy && HasSource(xy) && IsPath(path) && IsPath(source)
    ensures ReadRight(xy, path, source)
  {
    var reports := [Report(xy, path, Some(source))];
    CleanMeansUntouched(reports);
    assert PathsOf(reports) == [Entry(xy, path), Entry(xy, source)];
    assert forall e :: e in PathsOf(reports) <==> e == Entry(xy, path) || e == Entry(xy, source);
  }

  /** A rename that only the second letter announces, which git does not write under
      --no-renames, hides its source from the gate; so does every such code. */
  lemma UnannouncedHidesSource(xy: string)
    requires |xy| == 2 && NUL !in xy && !HasSource(xy)
    ensures var r := Report(xy, "new", Some("rtl/old"));
      && AllWellFormed([r]) && !SourcesAnnounced([r])
      && Entry(xy, "rtl/old") in PathsOf([r]) && Guarded("rtl/old")
      && Clean(Porcelain([r]))
  {
    var r := Report(xy, "new", Some("rtl/old"));
    SourceListed(r);
    assert "rtl/old"[3] == '/' && "new"[0] == 'n';
    UnannouncedClean(xy, "new", "rtl/old");
  }

  lemma SourceListed(r: Report)
    requires WellFormed(r) && r.source.Some?
    ensures Entry(r.xy, r.source.value) in PathsOf([r])
  {
    assert PathsOf([r])[1] == Entry(r.xy, r.source.value);
  }

  /** Of such a source all but the first three letters is read as a path. */
  lemma UnannouncedClean(xy: string, path: string, source: string)
    requires |xy| == 2 && NUL !in xy && !HasSource(xy) && IsPath(path) && IsPath(source)
    requires |source| >= 4 && !HasSource(source) && !Guarded(path) && !Guarded(source[3..])
    ensures Clean(Porcelain([Report(xy, path, Some(source))]))
  {
    UnannouncedRead(xy, path, source);
  }

  lemma UnannouncedRead(xy: string, path: string, source: string)
    requires |xy| == 2 && NUL !in xy && !HasSource(xy) && IsPath(path) && IsPath(source)
    requires |source| >= 4 && !HasSource(source)
    ensures EntriesOf(Split(Porcelain([Report(xy, path, Some(source))]), NUL)) ==
            [Entry(xy, path), Entry(source[..2], source[3..])]
  {
    var r := Report(xy, path, Some(source));
    FieldsHaveNoNul([r]);
    SplitOfJoin(AllFields([r]) + [""], NUL);
    assert AllFields([r]) == FieldsOf(r);
    EntriesOfReport(r, [""]);
    MisreadField(source);
  }

  lemma MisreadField(source: string)
    requires |source| >= 4 && !HasSource(source)
    ensures EntriesOf([source] + [""]) == [Entry(source[..2], source[3..])]
  {
    assert ([source] + [""])[1..] == [""];
    assert EntriesOf([""]) == [];
    assert HasSource(source[..2]) == HasSource(source);
  }

  /** A dry run given a commit, and a tag or the override, asks git nothing. */
  lemma DryRunAsksNothing(args: Args, repo: Repo, other: Repo)
    requires args.dryRun && args.commit.Some? && (args.tag.Some? || args.untagged)
    ensures Resolve(args, repo) == Resolve(args, other)
  {
  }
}
