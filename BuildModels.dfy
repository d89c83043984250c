/** The build manager's names for the build systems it drives, printed and
    parsed back case-insensitively, and the default build options. */
module BuildModels {
  import opened Common

  /** `BuildSystem`. */
  datatype BuildSystem = GN | Bazel | Cargo

  /** The one `crate::Error` variant parsing produces. */
  datatype Error = InvalidArgument(message: string)

  datatype Result<T> = Ok(value: T) | Err(error: Error)

  /** `Display for BuildSystem`: a non-empty lower-case name. */
  function Display(b: BuildSystem): (name: string)
    ensures |name| > 0 && forall i :: 0 <= i < |name| ==> 'a' <= name[i] <= 'z'
  {
    match b
    case GN => "gn"
    case Bazel => "bazel"
    case Cargo => "cargo"
  }

  /** Lower-casing of one character: `A` to `Z` become `a` to `z`, every
      other character is kept. */
  function LowerChar(c: char): (l: char)
    ensures 'A' <= c <= 'Z' ==> 'a' <= l <= 'z' && l as int - c as int == 32
    ensures !('A' <= c <= 'Z') ==> l == c
  {
    if 'A' <= c <= 'Z' then (c as int + 32) as char else c
  }

  /** `str::to_lowercase`, character by character. */
  function ToLower(s: string): (l: string)
    ensures |l| == |s|
  {
    seq(|s|, i requires 0 <= i < |s| => LowerChar(s[i]))
  }

  /** `FromStr for BuildSystem`: the lower-cased name is matched against
      the three names; anything else is an invalid argument naming the
      input. */
  function FromStr(s: string): (r: Result<BuildSystem>)
    ensures r.Ok? ==> Display(r.value) == ToLower(s)
    ensures r.Err? ==> r.error == InvalidArgument("Unknown build system: " + s)
  {
    var l := ToLower(s);
    if l == "gn" then Ok(GN)
    else if l == "bazel" then Ok(Bazel)
    else if l == "cargo" then Ok(Cargo)
    else Err(InvalidArgument("Unknown build system: " + s))
  }

  /** The three names are already lower case. */
  lemma NamesAreLower(b: BuildSystem)
    ensures ToLower(Display(b)) == Display(b)
  {
    var d := Display(b);
    forall i | 0 <= i < |d|
      ensures ToLower(d)[i] == d[i]
    {
    }
  }

  /** Parsing what `Display` prints gives the same build system back. */
  lemma RoundTrip(b: BuildSystem)
    ensures FromStr(Display(b)) == Ok(b)
  {
    NamesAreLower(b);
  }

  /** A string parses exactly when its lower-cased form is one of the
      printed names, and then to the build system printing that name;
      otherwise the error carries the input. */
  lemma ParseIffName(s: string)
    ensures FromStr(s).Ok? <==> exists b :: Display(b) == ToLower(s)
    ensures FromStr(s).Ok? ==> Display(FromStr(s).value) == ToLower(s)
    ensures FromStr(s).Err? ==> FromStr(s).error == InvalidArgument("Unknown build system: " + s)
  {
    if FromStr(s).Err? {
      forall b ensures Display(b) != ToLower(s) {
      }
    } else {
      assert Display(FromStr(s).value) == ToLower(s);
    }
  }

  /** Parsing ignores case: strings that agree once lower-cased parse to
      the same build system. */
  lemma CaseInsensitive(s: string, t: string)
    requires ToLower(s) == ToLower(t)
    ensures FromStr(s).Ok? <==> FromStr(t).Ok?
    ensures FromStr(s).Ok? ==> FromStr(s) == FromStr(t)
  {
  }

  /** Upper- and mixed-case spellings are accepted; other names are not. */
  lemma ParseExamples()
    ensures FromStr("GN") == Ok(GN)
    ensures FromStr("Bazel") == Ok(Bazel)
    ensures FromStr("CARGO") == Ok(Cargo)
    ensures FromStr("make").Err?
  {
    assert ToLower("GN") == "gn";
    assert ToLower("Bazel") == "bazel";
    assert ToLower("CARGO") == "cargo";
    assert ToLower("make") == "make";
  }

  /** `BuildOptions`. */
  datatype BuildOptions = BuildOptions(clean: bool, parallelJobs: Option<nat>, verbose: bool,
                                       profile: Option<string>, extraArgs: seq<string>)

  /** `BuildOptions::default`: not clean, no job count, quiet, no profile,
      no extra arguments. */
  function DefaultOptions(): (o: BuildOptions)
    ensures !o.clean && o.parallelJobs == None && !o.verbose && o.profile == None && o.extraArgs == []
  {
    BuildOptions(false, None, false, None, [])
  }
}
