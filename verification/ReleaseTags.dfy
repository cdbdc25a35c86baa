/** The frontend release tags of tools/fe_release.py. */
module ReleaseTags {
  import opened Text

  /** A release version, fe-<major>.<minor>.<patch>. */
  datatype Version = Version(major: nat, minor: nat, patch: nat)

  /** The version a release tag names, or None for any other name. */
  function ParseTag(name: string): Option<Version> {
    if |name| < 3 || name[..3] != "fe-" then None
    else
      var f := Split(name[3..], '.');
      if |f| != 3 then None
      else
        match (ParseNumeral(f[0], 10), ParseNumeral(f[1], 10), ParseNumeral(f[2], 10))
        case (Some(a), Some(b), Some(c)) => Some(Version(a, b, c))
        case _ => None
  }

  /** The canonical name of a version. */
  function PrintTag(v: Version): string {
    "fe-" + Join([Numeral(v.major, 10), Numeral(v.minor, 10), Numeral(v.patch, 10)], '.')
  }

  lemma ParseOfPrint(v: Version)
    ensures ParseTag(PrintTag(v)) == Some(v)
  {
    var fields := [Numeral(v.major, 10), Numeral(v.minor, 10), Numeral(v.patch, 10)];
    ParseOfNumeral(v.major, 10);
    ParseOfNumeral(v.minor, 10);
    ParseOfNumeral(v.patch, 10);
    SplitOfJoin(fields, '.');
    assert PrintTag(v)[..3] == "fe-" && PrintTag(v)[3..] == Join(fields, '.');
  }

  lemma PrintOfParse(name: string)
    requires ParseTag(name).Some?
    ensures PrintTag(ParseTag(name).value) == name
  {
    var f := Split(name[3..], '.');
    JoinOfSplit(name[3..], '.');
    NumeralOfParse(f[0], 10);
    NumeralOfParse(f[1], 10);
    NumeralOfParse(f[2], 10);
    assert f == [f[0], f[1], f[2]];
    assert name == name[..3] + name[3..];
  }

  /** Main result: the accepted names are exactly the printed versions, and no two
      versions print alike. */
  lemma TagsAreVersions(name: string, v: Version)
    ensures ParseTag(name) == Some(v) <==> name == PrintTag(v)
  {
    ParseOfPrint(v);
    if ParseTag(name) == Some(v) {
      PrintOfParse(name);
    }
  }

  /** Field by field, as numbers. */
  predicate Older(a: Version, b: Version) {
    a.major < b.major || (a.major == b.major &&
    (a.minor < b.minor || (a.minor == b.minor && a.patch < b.patch)))
  }

  /** The order max() uses on (version, name) pairs. */
  predicate PairLess(a: (Version, string), b: (Version, string)) {
    Older(a.0, b.0) || (a.0 == b.0 && Less(a.1, b.1))
  }

  function Tagged(names: seq<string>): (tags: seq<(Version, string)>)
    ensures forall t :: t in tags ==> t.1 in names && ParseTag(t.1) == Some(t.0)
    ensures forall n :: n in names && ParseTag(n).Some? ==> (ParseTag(n).value, n) in tags
  {
    if names == [] then [] else
    var rest := Tagged(names[1..]);
    match ParseTag(names[0])
    case Some(v) => [(v, names[0])] + rest
    case None => rest
  }

  function MaxTag(tags: seq<(Version, string)>): (m: (Version, string))
    requires tags != []
    ensures m in tags
    ensures forall t :: t in tags ==> !Older(m.0, t.0)
  {
    if |tags| == 1 then tags[0] else
    var m := MaxTag(tags[1..]);
    if PairLess(tags[0], m) then m else tags[0]
  }

  /** The release tag of names with the highest version, or None when there is none. */
  function LatestTag(names: seq<string>): Option<string> {
    var tags := Tagged(names);
    if tags == [] then None else Some(MaxTag(tags).1)
  }

  function Names(names: seq<string>): set<string> {
    set n | n in names
  }

  /** The defining property of the latest tag, mentioning neither order nor
      repetition of the names. */
  ghost predicate IsLatest(names: set<string>, latest: Option<string>) {
    match latest
    case None => forall n :: n in names ==> ParseTag(n).None?
    case Some(t) =>
      && t in names && ParseTag(t).Some?
      && forall n :: n in names && ParseTag(n).Some? && n != t ==> Older(ParseTag(n).value, ParseTag(t).value)
  }

  lemma LatestIsLatest(names: seq<string>)
    ensures IsLatest(Names(names), LatestTag(names))
  {
    var tags := Tagged(names);
    if tags == [] {
    } else {
      var m := MaxTag(tags);
      forall n | n in names && ParseTag(n).Some? && n != m.1
        ensures Older(ParseTag(n).value, m.0)
      {
        assert (ParseTag(n).value, n) in tags;
        PrintOfParse(n);
        PrintOfParse(m.1);
      }
    }
  }

  /** Main result: the latest tag is the only name that fits, so any two lists of
      the same names, in whatever order and with whatever repetition, agree. */
  lemma LatestIsUnique(names: seq<string>, others: seq<string>)
    requires forall n :: n in names <==> n in others
    ensures LatestTag(names) == LatestTag(others)
    ensures forall t :: IsLatest(Names(names), t) ==> t == LatestTag(names)
  {
    LatestIsLatest(names);
    LatestIsLatest(others);
    assert Names(names) == Names(others);
    forall t | IsLatest(Names(names), t)
      ensures t == LatestTag(names)
    {
      OneLatest(Names(names), t, LatestTag(names));
    }
  }

  lemma OneLatest(names: set<string>, a: Option<string>, b: Option<string>)
    requires IsLatest(names, a) && IsLatest(names, b)
    ensures a == b
  {
  }

  /** Of two releases the latest is the one with the greater major number; with the
      same, the greater minor number; with the same again, the greater patch number. */
  lemma LatestOfTwo(a: Version, b: Version)
    ensures a.major > b.major ==> LatestTag([PrintTag(a), PrintTag(b)]) == Some(PrintTag(a))
    ensures a.major == b.major && a.minor > b.minor ==>
      LatestTag([PrintTag(a), PrintTag(b)]) == Some(PrintTag(a))
    ensures a.major == b.major && a.minor == b.minor && a.patch >= b.patch ==>
      LatestTag([PrintTag(a), PrintTag(b)]) == Some(PrintTag(a))
  {
    var names := [PrintTag(a), PrintTag(b)];
    ParseOfPrint(a);
    ParseOfPrint(b);
    LatestIsLatest(names);
    assert PrintTag(a) in Names(names) && PrintTag(b) in Names(names);
  }

  /** A release name, spelled out. */
  lemma SomeRelease()
    ensures PrintTag(Version(1, 20, 3)) == "fe-1.20.3"
  {
    assert Digits(20, 10) == [2, 0] && Digits(1, 10) == [1] && Digits(3, 10) == [3];
    assert Numeral(1, 10) == "1" && Numeral(20, 10) == "20" && Numeral(3, 10) == "3";
    assert Join(["3"], '.') == "3" && ["20", "3"][1..] == ["3"] && ["1", "20", "3"][1..] == ["20", "3"];
    assert Join(["20", "3"], '.') == "20.3";
    assert Join(["1", "20", "3"], '.') == "1.20.3";
  }
}
