/** The pure pieces of the scan entry point: the parameter checks, the
    sanitised job id and output file name, the unit `format_size` picks, and
    the split of the project filter. */
module Scan {
  import opened Wrappers
  import opened Text

  // ---------------------------------------------------------------------------
  // parameter checks

  /** Python truthiness of an optional string argument. */
  predicate Given(s: Option<string>) {
    s.Some? && s.value != ""
  }

  /** The checks that open `scan_azdevops`, organization first, then the job
      id, then the token; the first missing one is reported. */
  function ValidateScanParams(organization: Option<string>, jobId: Option<string>, token: Option<string>): (r: Result<()>)
    ensures r.Ok? <==> Given(organization) && Given(jobId) && Given(token)
    ensures !Given(organization) ==> r == Err(ValueError("Organization must be provided"))
    ensures Given(organization) && !Given(jobId) ==> r == Err(ValueError("Job ID must be provided"))
    ensures Given(organization) && Given(jobId) && !Given(token) ==>
      r == Err(ValueError("Personal Access Token (PAT) must be provided"))
  {
    if !Given(organization) then Err(ValueError("Organization must be provided"))
    else if !Given(jobId) then Err(ValueError("Job ID must be provided"))
    else if !Given(token) then Err(ValueError("Personal Access Token (PAT) must be provided"))
    else Ok(())
  }

  // ---------------------------------------------------------------------------
  // the output file name

  /** The characters the job-id pattern keeps: `[a-zA-Z0-9_-]`. */
  predicate Allowed(c: char) {
    ('a' <= c <= 'z') || ('A' <= c <= 'Z') || ('0' <= c <= '9') || c == '_' || c == '-'
  }

  /** `re.sub(r'[^a-zA-Z0-9_-]', '_', job_id)`, one character at a time. */
  function SafeJobId(s: string): (r: string)
    ensures |r| == |s|
    ensures forall i :: 0 <= i < |s| && Allowed(s[i]) ==> r[i] == s[i]
    ensures forall i :: 0 <= i < |s| && !Allowed(s[i]) ==> r[i] == '_'
    decreases |s|
  {
    if s == [] then []
    else [if Allowed(s[0]) then s[0] else '_'] + SafeJobId(s[1..])
  }

  /** The sanitised id holds only allowed characters, and an id that already
      does is left as it is, so sanitising twice changes nothing more. */
  lemma SafeJobIdAllowed(s: string)
    ensures forall i :: 0 <= i < |s| ==> Allowed(SafeJobId(s)[i])
  {
  }

  lemma SafeJobIdFixed(s: string)
    requires forall i :: 0 <= i < |s| ==> Allowed(s[i])
    ensures SafeJobId(s) == s
  {
  }

  lemma SafeJobIdIdempotent(s: string)
    ensures SafeJobId(SafeJobId(s)) == SafeJobId(s)
  {
    SafeJobIdAllowed(s);
    SafeJobIdFixed(SafeJobId(s));
  }

  /** Sanitising can map two job ids to the same name. */
  lemma SafeJobIdNotInjective()
    ensures SafeJobId("a.b") == SafeJobId("a_b")
  {
  }

  /** The name of the results file inside the results directory. */
  function OutputFileName(jobId: string): (name: string)
    ensures |name| == |jobId| + 10
    ensures StartsWith(name, "scan_") && EndsWith(name, ".json")
    ensures name[5..|name| - 5] == SafeJobId(jobId)
  {
    var name := "scan_" + SafeJobId(jobId) + ".json";
    assert name[..5] == "scan_";
    assert name[|name| - 5..] == ".json";
    name
  }

  /** The name never holds a path separator, so the file lands in the
      results directory whatever the job id. */
  lemma OutputFileNameStaysInDirectory(jobId: string)
    ensures '/' !in OutputFileName(jobId) && '\\' !in OutputFileName(jobId)
  {
    var name := OutputFileName(jobId);
    SafeJobIdAllowed(jobId);
    forall i | 0 <= i < |name|
      ensures name[i] != '/' && name[i] != '\\'
    {
      if 5 <= i < |name| - 5 {
        assert name[i] == SafeJobId(jobId)[i - 5];
      }
    }
  }

  // ---------------------------------------------------------------------------
  // format_size

  datatype Unit = B | KB | MB | GB

  function Divisor(u: Unit): (d: nat)
    ensures d > 0
  {
    match u
    case B => 1
    case KB => 1024
    case MB => 1024 * 1024
    case GB => 1024 * 1024 * 1024
  }

  /** The unit `format_size` reports a size in. */
  function SizeUnit(size: nat): (u: Unit)
    ensures u == GB <==> size >= 1024 * 1024 * 1024
    ensures u == MB <==> 1024 * 1024 <= size < 1024 * 1024 * 1024
    ensures u == KB <==> 1024 <= size < 1024 * 1024
    ensures u == B <==> size < 1024
  {
    if size >= 1024 * 1024 * 1024 then GB
    else if size >= 1024 * 1024 then MB
    else if size >= 1024 then KB
    else B
  }

  /** The chosen unit leaves a scaled value of at least 1 and, below the
      largest unit, under 1024. */
  lemma SizeUnitScales(size: nat)
    requires size > 0
    ensures Divisor(SizeUnit(size)) <= size
    ensures SizeUnit(size) != GB ==> size < 1024 * Divisor(SizeUnit(size))
  {
  }

  /** Below 1024 the size is printed exactly, as an integer and " B". */
  function FormatBytes(size: nat): (s: string)
    requires SizeUnit(size) == B
    ensures EndsWith(s, " B") && s[..|s| - 2] == Decimal(size)
  {
    var s := Decimal(size) + " B";
    assert s[|s| - 2..] == " B";
    s
  }

  // ---------------------------------------------------------------------------
  // the project filter

  /** `[p.strip() for p in projects.split(',')] if projects else []`. */
  function ProjectFilter(arg: Option<string>): (r: seq<string>)
    ensures !Given(arg) ==> r == []
    ensures Given(arg) ==> |r| == |Split(arg.value, ',')|
  {
    if !Given(arg) then [] else StripAll(Split(arg.value, ','))
  }

  /** Each piece stripped, in order. */
  function StripAll(parts: seq<string>): (r: seq<string>)
    ensures |r| == |parts| && forall i :: 0 <= i < |parts| ==> r[i] == Strip(parts[i])
  {
    seq(|parts|, i requires 0 <= i < |parts| => Strip(parts[i]))
  }

  /** A given filter has one name per comma plus one; the names hold no comma
      and no surrounding whitespace. */
  lemma ProjectFilterParts(arg: Option<string>)
    requires Given(arg)
    ensures |ProjectFilter(arg)| == Occurrences(arg.value, ',') + 1
    ensures forall i :: 0 <= i < |ProjectFilter(arg)| ==>
      ',' !in ProjectFilter(arg)[i] && Strip(ProjectFilter(arg)[i]) == ProjectFilter(arg)[i]
  {
    SplitCount(arg.value, ',');
    var parts := Split(arg.value, ',');
    var r := ProjectFilter(arg);
    forall i | 0 <= i < |parts|
      ensures ',' !in r[i] && Strip(r[i]) == r[i]
    {
      StrippedPart(parts[i]);
    }
  }

  /** A stripped piece of the split holds no comma and is stripped already. */
  lemma StrippedPart(part: string)
    requires ',' !in part
    ensures ',' !in Strip(part) && Strip(Strip(part)) == Strip(part)
  {
    StripIdempotent(part);
    if ',' in Strip(part) {
      StripWithin(part, ',');
    }
  }

  /** Joining stripped, comma-free names with commas and splitting the
      filter again gives the names back. */
  lemma ProjectFilterRoundTrip(names: seq<string>)
    requires |names| > 0 && Join(names, ',') != ""
    requires forall i :: 0 <= i < |names| ==> ',' !in names[i] && Strip(names[i]) == names[i]
    ensures ProjectFilter(Some(Join(names, ','))) == names
  {
    SplitJoin(names, ',');
    StripAllFixed(names);
  }

  /** Stripping names that are stripped already changes nothing. */
  lemma StripAllFixed(names: seq<string>)
    requires forall i :: 0 <= i < |names| ==> Strip(names[i]) == names[i]
    ensures StripAll(names) == names
  {
  }
}
