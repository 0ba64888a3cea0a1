/**
 * Locating a package's plugin file through its `entry_points.txt`: the
 * `[r2x_plugin]` section of that file (the INI-like format of the PyPA entry
 * points specification, section "File format"), the name of the package's
 * `.dist-info` directory, and the file path of a dotted module.
 */
module FileFinder {
  import opened Wrappers
  import opened Strings
  import opened Errors
  import Assoc

  // ---------------------------------------------------------------------------
  // Names and paths
  // ---------------------------------------------------------------------------

  /** `{name with - as _}-{version or 0.0.0}.dist-info` */
  function DistInfoName(packageNameFull: string, packageVersion: Option<string>): string
  {
    ReplaceChar(packageNameFull, '-', '_') + "-" + UnwrapOr(packageVersion, "0.0.0") + ".dist-info"
  }

  /** Reads a `.dist-info` name back into its normalised package name and its version. */
  function ParseDistInfoName(dir: string): Option<(string, string)>
  {
    if !EndsWith(dir, ".dist-info") then None
    else
      var stem := dir[..|dir| - |".dist-info"|];
      match RFindChar(stem, '-')
      case None => None
      case Some(k) => Some((stem[..k], stem[k + 1..]))
  }

  /**
   * The name holds no `-` before the version, and reading it back gives the
   * normalised package name and the version (0.0.0 when none is given),
   * whenever the version itself holds no `-`.
   */
  lemma DistInfoNameRoundTrip(packageNameFull: string, packageVersion: Option<string>)
    requires '-' !in UnwrapOr(packageVersion, "0.0.0")
    ensures '-' !in ReplaceChar(packageNameFull, '-', '_')
    ensures ParseDistInfoName(DistInfoName(packageNameFull, packageVersion))
         == Some((ReplaceChar(packageNameFull, '-', '_'), UnwrapOr(packageVersion, "0.0.0")))
  {
    var n := ReplaceChar(packageNameFull, '-', '_');
    var v := UnwrapOr(packageVersion, "0.0.0");
    var dir := DistInfoName(packageNameFull, packageVersion);
    var stem := n + "-" + v;
    assert dir == stem + ".dist-info";
    assert dir[..|dir| - |".dist-info"|] == stem;
    assert forall j :: |n| < j < |stem| ==> stem[j] == v[j - |n| - 1];
    RFindCharIs(stem, '-', |n|);
    assert stem[..|n|] == n && stem[|n| + 1..] == v;
  }

  /** `module_path.replace('.', "/") + ".py"` */
  function ModuleFilePath(modulePath: string): string
  {
    ReplaceChar(modulePath, '.', '/') + ".py"
  }

  /** The dotted module a `.py` path stands for. */
  function ModuleOfFilePath(path: string): Option<string>
  {
    if EndsWith(path, ".py") then Some(ReplaceChar(path[..|path| - 3], '/', '.')) else None
  }

  /**
   * The path ends in `.py`, its stem holds no `.`, and it names the module
   * again whenever the module holds no `/`.
   */
  lemma ModuleFilePathRoundTrip(modulePath: string)
    requires '/' !in modulePath
    ensures EndsWith(ModuleFilePath(modulePath), ".py")
    ensures '.' !in ModuleFilePath(modulePath)[..|modulePath|]
    ensures ModuleOfFilePath(ModuleFilePath(modulePath)) == Some(modulePath)
  {
    var p := ModuleFilePath(modulePath);
    assert p[..|p| - 3] == ReplaceChar(modulePath, '.', '/');
    assert p[..|modulePath|] == ReplaceChar(modulePath, '.', '/');
    assert ReplaceChar(ReplaceChar(modulePath, '.', '/'), '/', '.') == modulePath;
  }

  // ---------------------------------------------------------------------------
  // entry_points.txt
  // ---------------------------------------------------------------------------

  const Header := "[r2x_plugin]"

  /**
   * The module path of one trimmed line `name = module.path:function`: the
   * trimmed text between the first `=` and the first `:` after it. Blank
   * lines, `#` comments and lines lacking either character give nothing.
   */
  function EntryValue(line: string): Option<string>
  {
    if line == [] || line[0] == '#' then None
    else
      match FindChar(line, '=')
      case None => None
      case Some(eq) => BeforeColon(Trim(line[eq + 1..]))
  }

  /** The trimmed text before the first `:`, when there is one. */
  function BeforeColon(value: string): Option<string>
  {
    match FindChar(value, ':')
    case None => None
    case Some(colon) => Some(Trim(value[..colon]))
  }

  /** There is a text before a `:` exactly when the value has one, and that text has none. */
  lemma BeforeColonSpec(value: string)
    ensures BeforeColon(value).Some? <==> ':' in value
    ensures BeforeColon(value).Some? ==> ':' !in BeforeColon(value).value
  {
    match FindChar(value, ':')
    case None =>
    case Some(colon) =>
      var modulePath := value[..colon];
      assert forall j :: 0 <= j < |modulePath| ==> modulePath[j] == value[j];
      TrimKeeps(modulePath, ':');
  }

  /**
   * The scan over trimmed lines, with `value` the module path a line gives:
   * the header opens the section; inside it a line starting with `[` ends
   * the scan, and the first line with a value gives the result.
   */
  function Scan(ts: seq<string>, inSection: bool, value: string -> Option<string>): Option<string>
    decreases |ts|
  {
    if ts == [] then None
    else if ts[0] == Header then Scan(ts[1..], true, value)
    else if inSection && StartsWith(ts[0], "[") then None
    else if inSection && value(ts[0]).Some? then value(ts[0])
    else Scan(ts[1..], inSection, value)
  }

  /** Every line trimmed. */
  function TrimLines(lines: seq<string>): (r: seq<string>)
    ensures |r| == |lines| && forall i :: 0 <= i < |lines| ==> r[i] == Trim(lines[i])
  {
    seq(|lines|, i requires 0 <= i < |lines| => Trim(lines[i]))
  }

  /** `parse_entry_points`: the module path of the `[r2x_plugin]` entry, if any. */
  function EntryPointsModule(content: string): Option<string>
  {
    Scan(TrimLines(Lines(content)), false, EntryValue)
  }

  /** The line loop of `parse_entry_points`, driven by the `in_r2x_plugin` flag. */
  method ParseEntryPoints(content: string) returns (r: Option<string>)
    ensures r == EntryPointsModule(content)
  {
    var lines := Lines(content);
    ghost var ts := TrimLines(lines);
    var inR2xPlugin := false;
    var i := 0;
    while i < |lines|
      invariant 0 <= i <= |lines|
      invariant Scan(ts[i..], inR2xPlugin, EntryValue) == Scan(ts, false, EntryValue)
    {
      var line := Trim(lines[i]);
      ScanUnfold(ts, i, inR2xPlugin, EntryValue);
      if line == Header {
        inR2xPlugin := true;
        i := i + 1;
        continue;
      }
      if inR2xPlugin {
        if StartsWith(line, "[") {
          return None;
        }
        var modulePath := LineModulePath(line);
        if modulePath.Some? {
          return modulePath;
        }
      }
      i := i + 1;
    }
    assert ts[i..] == [];
    return None;
  }

  /** One line of the scan, read at position `i`. */
  lemma ScanUnfold(ts: seq<string>, i: nat, inSection: bool, value: string -> Option<string>)
    requires i < |ts|
    ensures Scan(ts[i..], inSection, value) ==
      if ts[i] == Header then Scan(ts[i + 1..], true, value)
      else if inSection && StartsWith(ts[i], "[") then None
      else if inSection && value(ts[i]).Some? then value(ts[i])
      else Scan(ts[i + 1..], inSection, value)
  {
    assert ts[i..][0] == ts[i] && ts[i..][1..] == ts[i + 1..];
  }

  /** The body of the loop for one line of the section: `name = module.path:function`. */
  method LineModulePath(line: string) returns (r: Option<string>)
    ensures r == EntryValue(line)
  {
    if line != [] && line[0] != '#' {
      var eqPos := FindChar(line, '=');
      if eqPos.Some? {
        var value := Trim(line[eqPos.value + 1..]);
        var colonPos := FindChar(value, ':');
        if colonPos.Some? {
          return Some(Trim(value[..colonPos.value]));
        }
      }
    }
    return None;
  }

  /**
   * A line gives a value exactly when it is not blank, not a comment, has an
   * `=`, and has a `:` after its first `=`; the value holds no `:`.
   */
  lemma EntryValueSpec(line: string)
    ensures EntryValue(line).Some? <==>
      line != [] && line[0] != '#' && '=' in line && ':' in line[FindChar(line, '=').value + 1..]
    ensures EntryValue(line).Some? ==> ':' !in EntryValue(line).value
  {
    if line != [] && line[0] != '#' {
      match FindChar(line, '=')
      case None =>
      case Some(eq) =>
        EntryValueAfterEq(line, eq);
    }
  }

  /** A line with its first `=` at `eq` gives a value exactly when a `:` follows, and the value has none. */
  lemma EntryValueAfterEq(line: string, eq: nat)
    requires line != [] && line[0] != '#' && FindChar(line, '=') == Some(eq)
    ensures EntryValue(line).Some? <==> ':' in line[eq + 1..]
    ensures EntryValue(line).Some? ==> ':' !in EntryValue(line).value
  {
    var rest := line[eq + 1..];
    EntryValueIs(line, eq);
    TrimKeeps(rest, ':');
    BeforeColonSpec(Trim(rest));
  }

  /** What follows the first `=`, trimmed, is what the value is read from. */
  lemma EntryValueIs(line: string, eq: nat)
    requires line != [] && line[0] != '#' && FindChar(line, '=') == Some(eq)
    ensures EntryValue(line) == BeforeColon(Trim(line[eq + 1..]))
  {
    assert !(line == [] || line[0] == '#');
  }

  /** The header gives no value. */
  lemma HeaderHasNoValue()
    ensures EntryValue(Header).None?
  {
    assert Header[0] != '#' && '=' !in Header;
  }

  /** A line that neither ends the section nor gives a value, or that reopens it. */
  predicate Quiet(t: string, value: string -> Option<string>)
  {
    t == Header || (!StartsWith(t, "[") && value(t).None?)
  }

  /** Lines before the first header are ignored. */
  lemma {:induction false} ScanPreamble(ts: seq<string>, h: nat, value: string -> Option<string>)
    requires h <= |ts| && forall j :: 0 <= j < h ==> ts[j] != Header
    ensures Scan(ts, false, value) == Scan(ts[h..], false, value)
    decreases h
  {
    if h > 0 {
      assert ts[0] != Header;
      assert forall j :: 0 <= j < h - 1 ==> ts[1..][j] == ts[j + 1];
      ScanPreamble(ts[1..], h - 1, value);
      assert ts[1..][h - 1..] == ts[h..];
    }
  }

  /** Without a header there is no module path. */
  lemma NoHeaderNoModule(ts: seq<string>, value: string -> Option<string>)
    requires Header !in ts
    ensures Scan(ts, false, value) == None
  {
    ScanPreamble(ts, |ts|, value);
  }

  /**
   * Inside the section from line `i` on, the first line with a value decides
   * once every line from `i` up to it is quiet.
   */
  lemma {:induction false} ScanFirstValue(ts: seq<string>, i: nat, k: nat, value: string -> Option<string>)
    requires i <= k < |ts| && ts[k] != Header && !StartsWith(ts[k], "[") && value(ts[k]).Some?
    requires forall j :: i <= j < k ==> Quiet(ts[j], value)
    ensures Scan(ts[i..], true, value) == value(ts[k])
    decreases k - i
  {
    assert ts[i..][0] == ts[i];
    if i < k {
      assert Quiet(ts[i], value);
      assert ts[i..][1..] == ts[i + 1..];
      ScanFirstValue(ts, i + 1, k, value);
    }
  }

  /**
   * Completeness: after the first header, the first line with a value gives
   * the module path when no section starts in between.
   */
  lemma ScanComplete(ts: seq<string>, h: nat, k: nat, value: string -> Option<string>)
    requires h < k < |ts| && ts[h] == Header && forall j :: 0 <= j < h ==> ts[j] != Header
    requires ts[k] != Header && !StartsWith(ts[k], "[") && value(ts[k]).Some?
    requires forall j :: h < j < k ==> Quiet(ts[j], value)
    ensures Scan(ts, false, value) == value(ts[k])
  {
    ScanPreamble(ts, h, value);
    assert ts[h..][0] == Header && ts[h..][1..] == ts[h + 1..];
    ScanFirstValue(ts, h + 1, k, value);
  }

  /**
   * Line `k` lies in an `[r2x_plugin]` section with only quiet lines before
   * it in that section: the section was open from the start, or a header
   * precedes it.
   */
  predicate InSectionAt(ts: seq<string>, k: nat, inSection: bool, value: string -> Option<string>)
    requires k <= |ts|
  {
    || (inSection && forall j :: 0 <= j < k ==> Quiet(ts[j], value))
    || exists h :: 0 <= h < k && ts[h] == Header && forall j :: h < j < k ==> Quiet(ts[j], value)
  }

  /** Soundness: a result is the value of a line of the section that starts no other section. */
  lemma {:induction false} ScanSound(ts: seq<string>, inSection: bool, value: string -> Option<string>)
    requires Scan(ts, inSection, value).Some?
    ensures exists k :: (0 <= k < |ts| && ts[k] != Header && !StartsWith(ts[k], "[")
      && value(ts[k]) == Scan(ts, inSection, value) && InSectionAt(ts, k, inSection, value))
    decreases |ts|
  {
    var v := Scan(ts, inSection, value);
    var t := ts[0];
    var tail := ts[1..];
    assert forall j :: 0 < j < |ts| ==> ts[j] == tail[j - 1];
    if t == Header {
      ScanSound(tail, true, value);
      var k' :| 0 <= k' < |tail| && tail[k'] != Header && !StartsWith(tail[k'], "[")
        && value(tail[k']) == v && InSectionAt(tail, k', true, value);
      ShiftInSection(ts, k', true, value);
      assert ts[k' + 1] == tail[k'];
    } else if inSection && value(t).Some? {
      assert !StartsWith(t, "[") && v == value(t);
      assert InSectionAt(ts, 0, inSection, value);
    } else {
      ScanSound(tail, inSection, value);
      var k' :| 0 <= k' < |tail| && tail[k'] != Header && !StartsWith(tail[k'], "[")
        && value(tail[k']) == v && InSectionAt(tail, k', inSection, value);
      assert !inSection || Quiet(t, value);
      ShiftInSection(ts, k', inSection, value);
      assert ts[k' + 1] == tail[k'];
    }
  }

  /**
   * One line in front: a header opens the section for what follows; another
   * line keeps it as it was, provided it is quiet when the section is open.
   */
  lemma ShiftInSection(ts: seq<string>, k: nat, inSection: bool, value: string -> Option<string>)
    requires 0 < |ts| && k < |ts| - 1
    requires InSectionAt(ts[1..], k, inSection, value)
    requires ts[0] != Header && inSection ==> Quiet(ts[0], value)
    ensures InSectionAt(ts, k + 1, ts[0] != Header && inSection, value)
  {
    var tail := ts[1..];
    assert forall j :: 0 < j < |ts| ==> ts[j] == tail[j - 1];
    if ts[0] == Header && inSection && forall j :: 0 <= j < k ==> Quiet(tail[j], value) {
      assert forall j :: 0 < j < k + 1 ==> Quiet(ts[j], value);
    } else if inSection && forall j :: 0 <= j < k ==> Quiet(tail[j], value) {
      assert forall j :: 0 <= j < k + 1 ==> Quiet(ts[j], value);
    } else {
      var h :| 0 <= h < k && tail[h] == Header && forall j :: h < j < k ==> Quiet(tail[j], value);
      assert ts[h + 1] == Header;
      assert forall j :: h + 1 < j < k + 1 ==> Quiet(ts[j], value);
    }
  }

  /**
   * `Path::join` on `/`-separated paths: an absolute argument replaces the
   * base; otherwise a separator is put between the two unless the base is
   * empty or already ends in one.
   */
  function PathJoin(base: string, path: string): string
  {
    if StartsWith(path, "/") then path
    else if base == [] || EndsWith(base, "/") then base + path
    else base + "/" + path
  }

  /**
   * The joined path ends with the argument; it is the argument itself when
   * that is absolute, and otherwise starts with the base and adds at most one
   * separator between them.
   */
  lemma PathJoinSpec(base: string, path: string)
    ensures EndsWith(PathJoin(base, path), path)
    ensures StartsWith(path, "/") ==> PathJoin(base, path) == path
    ensures !StartsWith(path, "/") ==>
      StartsWith(PathJoin(base, path), base) && |base| + |path| <= |PathJoin(base, path)| <= |base| + |path| + 1
  {
    if !StartsWith(path, "/") {
      if base == [] || EndsWith(base, "/") {
        StartsWithConcat(base, path);
        assert (base + path)[|base + path| - |path|..] == path;
      } else {
        Assoc.AppendAssoc(base, "/", path);
        StartsWithConcat(base, "/" + path);
        assert (base + ("/" + path))[|base + ("/" + path)| - |path|..] == path;
      }
    }
  }

  /** A module starting with `.` or `/`, whose file path is therefore absolute. */
  predicate AbsoluteModule(modulePath: string)
  {
    modulePath != [] && (modulePath[0] == '.' || modulePath[0] == '/')
  }

  /**
   * A module's file path is absolute exactly when the module starts with
   * `.` or `/`, and then joining it to `site-packages` leaves that directory.
   */
  lemma AbsoluteModuleFilePath(modulePath: string)
    ensures StartsWith(ModuleFilePath(modulePath), "/") <==> AbsoluteModule(modulePath)
  {
    var p := ModuleFilePath(modulePath);
    assert p[..1] == [p[0]];
    if modulePath != [] {
      assert p[0] == ReplaceChar(modulePath, '.', '/')[0];
    } else {
      assert p == ".py";
    }
  }

  /** `site-packages/{dist-info name}/entry_points.txt` */
  function EntryPointsFile(site: string, packageNameFull: string, packageVersion: Option<string>): string
  {
    PathJoin(PathJoin(site, DistInfoName(packageNameFull, packageVersion)), "entry_points.txt")
  }

  /**
   * The entry-point lookup with the file system passed in: the
   * `site-packages` directory under the first `python*` directory, whether a
   * path exists, and the text of a file. Every failure is the same
   * `PluginNotFound`.
   */
  function PluginsPyViaEntryPoints(packageNameFull: string, packageVersion: Option<string>,
                                  sitePackages: Option<string>, pathExists: string -> bool,
                                  read: string -> Option<string>): Result<string, BridgeError>
  {
    var notFound := Err(PluginNotFound("entry_points.txt not found"));
    match sitePackages
    case None => notFound
    case Some(site) =>
      var entryPointsFile := EntryPointsFile(site, packageNameFull, packageVersion);
      if !pathExists(entryPointsFile) then notFound
      else
        match read(entryPointsFile)
        case None => notFound
        case Some(content) =>
          match EntryPointsModule(content)
          case None => notFound
          case Some(modulePath) =>
            var possiblePath := PathJoin(site, ModuleFilePath(modulePath));
            if pathExists(possiblePath) then Ok(possiblePath) else notFound
  }

  /**
   * A found file is an existing `.py` path that the `[r2x_plugin]` entry
   * names, joined to `site-packages`: inside that directory unless the
   * module starts with `.` or `/`, in which case it is the module's path
   * itself. Every other outcome is `PluginNotFound`.
   */
  lemma PluginsPyViaEntryPointsSpec(packageNameFull: string, packageVersion: Option<string>,
                                    sitePackages: Option<string>, pathExists: string -> bool,
                                    read: string -> Option<string>)
    ensures var r := PluginsPyViaEntryPoints(packageNameFull, packageVersion, sitePackages, pathExists, read);
      && (r.Err? ==> r.error == PluginNotFound("entry_points.txt not found"))
      && (r.Ok? ==>
            && sitePackages.Some? && pathExists(r.value) && EndsWith(r.value, ".py")
            && exists m ::
                 && EntryPointsModule(read(EntryPointsFile(sitePackages.value, packageNameFull, packageVersion)).value) == Some(m)
                 && r.value == PathJoin(sitePackages.value, ModuleFilePath(m))
                 && (AbsoluteModule(m) ==> r.value == ModuleFilePath(m))
                 && (!AbsoluteModule(m) ==> StartsWith(r.value, sitePackages.value)))
  {
    match sitePackages
    case None =>
    case Some(site) =>
      var file := EntryPointsFile(site, packageNameFull, packageVersion);
      match read(file)
      case None =>
      case Some(content) =>
        match EntryPointsModule(content)
        case None =>
        case Some(m) =>
          FoundPath(site, m);
  }

  /** Where the path of a module joined to `site-packages` lies. */
  lemma FoundPath(site: string, m: string)
    ensures EndsWith(PathJoin(site, ModuleFilePath(m)), ".py")
    ensures AbsoluteModule(m) ==> PathJoin(site, ModuleFilePath(m)) == ModuleFilePath(m)
    ensures !AbsoluteModule(m) ==> StartsWith(PathJoin(site, ModuleFilePath(m)), site)
  {
    var path := ModuleFilePath(m);
    EndsWithConcat(ReplaceChar(m, '.', '/'), ".py", ".py");
    PathJoinSpec(site, path);
    AbsoluteModuleFilePath(m);
    EndsWithTransitive(PathJoin(site, path), path, ".py");
  }
}
