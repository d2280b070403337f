/** The command-line front end: the allowed provider codes from the
    provider registry, the chain names from the files of the node folder,
    and the validation of the arguments. Printing and the process exits
    become the `ArgError` results. */
module Setup {
  import opened Wrappers
  import opened Strings
  import opened OrderedDicts

  // ------------------------------------------------ allowed providers

  /** One entry of the provider registry: the provider's name and, when
      the entry has one, its short code. */
  datatype RegistryEntry = RegistryEntry(provider: string, short: Option<string>)

  /** The entry's short code, upper-cased, is `code`. */
  predicate HasShort(e: RegistryEntry, code: string) {
    e.short.Some? && Upper(e.short.value) == code
  }

  /** The allowed providers after the entries of `entries`, in registry
      order: a later entry with the same upper-cased code overrides. */
  function AllowedFrom(entries: seq<RegistryEntry>): map<string, string> {
    if |entries| == 0 then map[]
    else
      var m := AllowedFrom(entries[..|entries| - 1]);
      var e := entries[|entries| - 1];
      if e.short.Some? then m[Upper(e.short.value) := e.provider] else m
  }

  /** A code is allowed exactly when some entry has it, and it names the
      provider of the last such entry. */
  lemma {:induction false} AllowedFromSpec(entries: seq<RegistryEntry>, code: string)
    ensures code in AllowedFrom(entries) <==> exists i :: 0 <= i < |entries| && HasShort(entries[i], code)
    ensures code in AllowedFrom(entries) ==>
      exists i :: 0 <= i < |entries| && HasShort(entries[i], code) && AllowedFrom(entries)[code] == entries[i].provider
                  && forall j :: i < j < |entries| ==> !HasShort(entries[j], code)
  {
    if |entries| > 0 {
      var init := entries[..|entries| - 1];
      assert forall i :: 0 <= i < |init| ==> init[i] == entries[i];
      AllowedFromSpec(init, code);
      if !HasShort(entries[|entries| - 1], code) && code in AllowedFrom(entries) {
        var i :| 0 <= i < |init| && HasShort(init[i], code) && AllowedFrom(init)[code] == init[i].provider
                 && forall j :: i < j < |init| ==> !HasShort(init[j], code);
        assert forall j :: i < j < |entries| ==> !HasShort(entries[j], code);
      }
    }
  }

  /** `LoadConfigFilesAndGetAllowedProviders`. */
  method LoadConfigFilesAndGetAllowedProviders(registry: seq<RegistryEntry>) returns (allowed: map<string, string>)
    ensures allowed == AllowedFrom(registry)
  {
    allowed := map[];
    var i := 0;
    while i < |registry|
      invariant i <= |registry| && allowed == AllowedFrom(registry[..i])
    {
      assert registry[..i + 1][..i] == registry[..i];
      if registry[i].short.Some? {
        allowed := allowed[Upper(registry[i].short.value) := registry[i].provider];
      }
      i := i + 1;
    }
    assert registry[..i] == registry;
  }

  // ------------------------------------------------ chain names

  /** The index of the first `x` in `s`. */
  function FirstIndex<T(==)>(s: seq<T>, x: T): (i: nat)
    requires x in s
    ensures i < |s| && s[i] == x && x !in s[..i]
  {
    if s[0] == x then 0 else FirstIndex(s[1..], x) + 1
  }

  /** `s` without its first `x`: Python's `list.remove`. */
  function RemoveFirst<T(==)>(s: seq<T>, x: T): (r: seq<T>)
    requires x in s
    ensures |r| == |s| - 1
    ensures forall j :: 0 <= j < FirstIndex(s, x) ==> r[j] == s[j]
    ensures forall j :: FirstIndex(s, x) <= j < |r| ==> r[j] == s[j + 1]
  {
    var i := FirstIndex(s, x);
    s[..i] + s[i + 1..]
  }

  /** Removing one `x` takes exactly one `x` out of the multiset. */
  lemma RemoveFirstMultiset<T>(s: seq<T>, x: T)
    requires x in s
    ensures multiset(RemoveFirst(s, x)) + multiset{x} == multiset(s)
  {
    var i := FirstIndex(s, x);
    assert s == s[..i] + [x] + s[i + 1..];
  }

  /** A file name without its last five characters (`i[:-5]`), which for
      a name ending in ".json" is the chain's name. */
  function StripExtension(f: string): (n: string)
    ensures |f| >= 5 ==> f == n + f[|f| - 5..]
    ensures |f| < 5 ==> n == ""
  {
    if |f| >= 5 then f[..|f| - 5] else ""
  }

  /** `GetBlockchainNames`, given the files of the node folder: None when
      "sample.json" is not among them (a ValueError). */
  function GetBlockchainNames(files: seq<string>): (names: Option<seq<string>>)
    ensures names.None? <==> "sample.json" !in files
    ensures names.Some? ==> |names.value| == |files| - 1
  {
    if "sample.json" !in files then None
    else
      var rest := RemoveFirst(files, "sample.json");
      Some(seq(|rest|, i requires 0 <= i < |rest| => StripExtension(rest[i])))
  }

  /** Every file other than the one removed "sample.json" gives a chain
      name, and every chain name comes from such a file. */
  lemma BlockchainNamesFromFiles(files: seq<string>, f: string)
    requires "sample.json" in files
    ensures f in files && (f != "sample.json" || multiset(files)["sample.json"] > 1) ==>
      StripExtension(f) in GetBlockchainNames(files).value
    ensures forall n :: n in GetBlockchainNames(files).value ==> exists g :: g in files && n == StripExtension(g)
  {
    var rest := RemoveFirst(files, "sample.json");
    var names := GetBlockchainNames(files).value;
    RemoveFirstMultiset(files, "sample.json");
    if f in files && (f != "sample.json" || multiset(files)["sample.json"] > 1) {
      assert f in multiset(rest);
      var i :| 0 <= i < |rest| && rest[i] == f;
      assert names[i] == StripExtension(f);
    }
    forall n | n in names
      ensures exists g :: g in files && n == StripExtension(g)
    {
      var i :| 0 <= i < |names| && names[i] == n;
      assert rest[i] in multiset(files);
    }
  }

  // ------------------------------------------------ arguments

  const AllowedCommands: set<string> := {"--providers", "--blockchain", "--countries", "--output", "--help"}

  /** The validated arguments: the chain, the tracked providers (short code
      to provider name, in order) and countries, and the output flag. */
  datatype Arguments = Arguments(target: string, providersToTrack: seq<(string, string)>,
                                 countriesToTrack: map<string, string>, output: bool)

  /** Why `GetArguments` stops: `Usage` is the help text, `NoSampleFile`
      the ValueError of `GetBlockchainNames`, `OutputNotAnArgument` the
      ValueError of removing "--output" when it only occurs inside another
      argument, `TargetUnbound` the error of returning the chain when no
      argument set it; the rest are the error exits. */
  datatype ArgError =
    | Usage
    | NoSampleFile
    | MissingBlockchain
    | OutputNotAnArgument
    | WrongFormat(arg: string)
    | UnsupportedCommand(command: string)
    | UnknownBlockchain(name: string)
    | UnknownProvider(code: string)
    | UnknownCountry(code: string)
    | TargetUnbound

  /** Every entry of a tracked-provider table maps a code to the allowed
      provider it names. */
  predicate NamesFrom(d: seq<(string, string)>, allowed: map<string, string>) {
    forall i :: 0 <= i < |d| ==> d[i].0 in allowed && d[i].1 == allowed[d[i].0]
  }

  /** The codes of one `--providers` value, upper-cased, added in order;
      the first unknown code stops. */
  function TrackedProviders(tracked: seq<(string, string)>, codes: seq<string>, allowed: map<string, string>)
    : (r: Result<seq<(string, string)>, ArgError>)
    ensures r.Ok? <==> forall i :: 0 <= i < |codes| ==> Upper(codes[i]) in allowed
    ensures r.Err? ==> exists i :: 0 <= i < |codes| && r.error == UnknownProvider(Upper(codes[i]))
                                   && Upper(codes[i]) !in allowed
                                   && forall j :: 0 <= j < i ==> Upper(codes[j]) in allowed
    decreases |codes|
  {
    if |codes| == 0 then Ok(tracked)
    else
      var c := Upper(codes[0]);
      if c !in allowed then Err(UnknownProvider(c))
      else
        var r := TrackedProviders(Put(tracked, c, allowed[c]), codes[1..], allowed);
        KnownCodesShift(codes, allowed);
        if r.Err? then UnknownCodeShift(codes, allowed, r.error); r else r
  }

  /** After a known first code, all codes are known exactly when the rest
      are. */
  lemma KnownCodesShift(codes: seq<string>, allowed: map<string, string>)
    requires |codes| > 0 && Upper(codes[0]) in allowed
    ensures (forall i :: 0 <= i < |codes| ==> Upper(codes[i]) in allowed)
        <==> (forall i :: 0 <= i < |codes[1..]| ==> Upper(codes[1..][i]) in allowed)
  {
    assert forall i :: 0 <= i < |codes[1..]| ==> codes[1..][i] == codes[i + 1];
  }

  /** An unknown code found after a known first code is an unknown code of
      the whole list, with every code before it known. */
  lemma UnknownCodeShift(codes: seq<string>, allowed: map<string, string>, e: ArgError)
    requires |codes| > 0 && Upper(codes[0]) in allowed
    requires exists i :: 0 <= i < |codes[1..]| && e == UnknownProvider(Upper(codes[1..][i]))
                         && Upper(codes[1..][i]) !in allowed
                         && forall j :: 0 <= j < i ==> Upper(codes[1..][j]) in allowed
    ensures exists i :: 0 <= i < |codes| && e == UnknownProvider(Upper(codes[i]))
                        && Upper(codes[i]) !in allowed
                        && forall j :: 0 <= j < i ==> Upper(codes[j]) in allowed
  {
    var i :| 0 <= i < |codes[1..]| && e == UnknownProvider(Upper(codes[1..][i]))
             && Upper(codes[1..][i]) !in allowed
             && forall j :: 0 <= j < i ==> Upper(codes[1..][j]) in allowed;
    assert codes[i + 1] == codes[1..][i];
    assert forall j :: 1 <= j < i + 1 ==> codes[j] == codes[1..][j - 1];
  }

  /** After the codes are added, the table holds exactly the old codes and
      the new ones. */
  lemma {:induction false} TrackedProvidersKeys(tracked: seq<(string, string)>, codes: seq<string>,
                                                allowed: map<string, string>)
    ensures TrackedProviders(tracked, codes, allowed).Ok? ==>
      KeySet(TrackedProviders(tracked, codes, allowed).value) == KeySet(tracked) + set i | 0 <= i < |codes| :: Upper(codes[i])
    decreases |codes|
  {
    if |codes| > 0 && Upper(codes[0]) in allowed {
      var c := Upper(codes[0]);
      TrackedProvidersKeys(Put(tracked, c, allowed[c]), codes[1..], allowed);
      assert (set i | 0 <= i < |codes| :: Upper(codes[i])) == {c} + set i | 0 <= i < |codes[1..]| :: Upper(codes[1..][i]) by {
        assert forall i :: 0 <= i < |codes[1..]| ==> codes[1..][i] == codes[i + 1];
        assert forall i :: 0 < i < |codes| ==> codes[i] == codes[1..][i - 1];
      }
    }
  }

  /** Adding codes keeps the codes of the table distinct, each naming its
      allowed provider. */
  lemma {:induction false} TrackedProvidersNamed(tracked: seq<(string, string)>, codes: seq<string>,
                                                 allowed: map<string, string>)
    ensures DistinctKeys(tracked) && NamesFrom(tracked, allowed) && TrackedProviders(tracked, codes, allowed).Ok? ==>
      DistinctKeys(TrackedProviders(tracked, codes, allowed).value) && NamesFrom(TrackedProviders(tracked, codes, allowed).value, allowed)
    decreases |codes|
  {
    if DistinctKeys(tracked) && NamesFrom(tracked, allowed) && |codes| > 0 && Upper(codes[0]) in allowed {
      var c := Upper(codes[0]);
      PutGet(tracked, c, allowed[c], c);
      var t := Put(tracked, c, allowed[c]);
      assert NamesFrom(t, allowed) by {
        forall i | 0 <= i < |t| ensures t[i].0 in allowed && t[i].1 == allowed[t[i].0] {
          if i >= |tracked| {
            assert t == tracked + [(c, allowed[c])];
          }
        }
      }
      TrackedProvidersNamed(t, codes[1..], allowed);
    }
  }

  /** The codes of one `--countries` value, upper-cased, added in order;
      the first code with no country stops. */
  function TrackedCountries(tracked: map<string, string>, codes: seq<string>, countryNames: map<string, string>)
    : (r: Result<map<string, string>, ArgError>)
    ensures r.Ok? <==> forall i :: 0 <= i < |codes| ==> Upper(codes[i]) in countryNames
    ensures r.Err? ==> exists i :: 0 <= i < |codes| && r.error == UnknownCountry(Upper(codes[i]))
                                   && Upper(codes[i]) !in countryNames
                                   && forall j :: 0 <= j < i ==> Upper(codes[j]) in countryNames
    decreases |codes|
  {
    if |codes| == 0 then Ok(tracked)
    else
      var c := Upper(codes[0]);
      if c !in countryNames then Err(UnknownCountry(c))
      else
        var r := TrackedCountries(tracked[c := countryNames[c]], codes[1..], countryNames);
        assert forall i :: 0 <= i < |codes[1..]| ==> codes[1..][i] == codes[i + 1];
        r
  }

  /** After the codes are added, the table holds exactly the old codes and
      the new ones, each new one under its country's name. */
  lemma {:induction false} TrackedCountriesTable(tracked: map<string, string>, codes: seq<string>,
                                                 countryNames: map<string, string>)
    ensures TrackedCountries(tracked, codes, countryNames).Ok? ==>
      TrackedCountries(tracked, codes, countryNames).value.Keys == tracked.Keys + set i | 0 <= i < |codes| :: Upper(codes[i])
    ensures TrackedCountries(tracked, codes, countryNames).Ok? ==>
      forall k :: k in TrackedCountries(tracked, codes, countryNames).value ==>
        var v := TrackedCountries(tracked, codes, countryNames).value[k];
        (k in countryNames && v == countryNames[k]) || (k in tracked && v == tracked[k])
    decreases |codes|
  {
    if |codes| > 0 && Upper(codes[0]) in countryNames {
      var c := Upper(codes[0]);
      TrackedCountriesTable(tracked[c := countryNames[c]], codes[1..], countryNames);
      assert (set i | 0 <= i < |codes| :: Upper(codes[i])) == {c} + set i | 0 <= i < |codes[1..]| :: Upper(codes[1..][i]) by {
        assert forall i :: 0 <= i < |codes[1..]| ==> codes[1..][i] == codes[i + 1];
        assert forall i :: 0 < i < |codes| ==> codes[i] == codes[1..][i - 1];
      }
    }
  }

  /** What the argument loop has gathered so far. */
  datatype ArgState = ArgState(target: Option<string>, providers: seq<(string, string)>, countries: map<string, string>)

  /** What was gathered is allowed: a known chain, allowed providers under
      their names, known countries under their names. */
  predicate Gathered(st: ArgState, names: seq<string>, allowed: map<string, string>, countryNames: map<string, string>) {
    && (st.target.Some? ==> st.target.value in names)
    && NamesFrom(st.providers, allowed) && DistinctKeys(st.providers)
    && forall k :: k in st.countries ==> k in countryNames && st.countries[k] == countryNames[k]
  }

  /** One argument of the loop: it must split on "=" into a supported
      command and its value; a chain must be known, and the codes of
      `--providers` and `--countries` are added. */
  function ArgStep(st: ArgState, arg: string, names: seq<string>, allowed: map<string, string>,
                   countryNames: map<string, string>): (r: Result<ArgState, ArgError>)
    ensures r.Ok? ==> |Split(arg, "=")| == 2 && Split(arg, "=")[0] in AllowedCommands
    ensures r.Err? ==> r.error.WrongFormat? || r.error.UnsupportedCommand? || r.error.UnknownBlockchain?
                       || r.error.UnknownProvider? || r.error.UnknownCountry?
    ensures r.Ok? && Gathered(st, names, allowed, countryNames) ==> Gathered(r.value, names, allowed, countryNames)
    ensures r.Ok? && Split(arg, "=")[0] == "--blockchain" ==> r.value.target == Some(Split(arg, "=")[1])
    ensures r.Ok? && Split(arg, "=")[0] != "--blockchain" ==> r.value.target == st.target
  {
    var parts := Split(arg, "=");
    if |parts| != 2 then Err(WrongFormat(arg))
    else
      var command, value := parts[0], parts[1];
      if command !in AllowedCommands then Err(UnsupportedCommand(command))
      else if command == "--blockchain" then
        if value in names then Ok(st.(target := Some(value))) else Err(UnknownBlockchain(value))
      else if command == "--providers" then
        match TrackedProviders(st.providers, Split(value, ","), allowed)
        case Ok(p) =>
          TrackedProvidersNamed(st.providers, Split(value, ","), allowed);
          Ok(st.(providers := p))
        case Err(e) => Err(e)
      else if command == "--countries" then
        match TrackedCountries(st.countries, Split(value, ","), countryNames)
        case Ok(c) =>
          TrackedCountriesTable(st.countries, Split(value, ","), countryNames);
          Ok(st.(countries := c))
        case Err(e) => Err(e)
      else Ok(st)
  }

  /** The argument loop, from the front: the first failing argument stops. */
  function ArgsFold(st: ArgState, args: seq<string>, names: seq<string>, allowed: map<string, string>,
                    countryNames: map<string, string>): (r: Result<ArgState, ArgError>)
    ensures r.Ok? && Gathered(st, names, allowed, countryNames) ==> Gathered(r.value, names, allowed, countryNames)
    ensures r.Ok? ==> forall i :: 0 <= i < |args| ==> |Split(args[i], "=")| == 2 && Split(args[i], "=")[0] in AllowedCommands
    ensures r.Err? ==> r.error.WrongFormat? || r.error.UnsupportedCommand? || r.error.UnknownBlockchain?
                       || r.error.UnknownProvider? || r.error.UnknownCountry?
    decreases |args|
  {
    if |args| == 0 then Ok(st)
    else
      match ArgStep(st, args[0], names, allowed, countryNames)
      case Err(e) => Err(e)
      case Ok(next) =>
        var r := ArgsFold(next, args[1..], names, allowed, countryNames);
        assert forall i :: 0 <= i < |args[1..]| ==> args[1..][i] == args[i + 1];
        r
  }

  /** The chain of the loop is the value of the last "--blockchain"
      argument: a chain, once set, stays set; any "--blockchain" argument
      sets one; and a chain the loop sets comes from such an argument. */
  lemma {:induction false} ArgsFoldTarget(st: ArgState, args: seq<string>, names: seq<string>,
                                          allowed: map<string, string>, countryNames: map<string, string>)
    ensures var r := ArgsFold(st, args, names, allowed, countryNames);
      r.Ok? && st.target.Some? ==> r.value.target.Some?
    ensures var r := ArgsFold(st, args, names, allowed, countryNames);
      r.Ok? && (exists i :: 0 <= i < |args| && Split(args[i], "=")[0] == "--blockchain") ==> r.value.target.Some?
    ensures var r := ArgsFold(st, args, names, allowed, countryNames);
      r.Ok? && r.value.target != st.target ==>
        r.value.target.Some? && exists i :: 0 <= i < |args| && Split(args[i], "=") == ["--blockchain", r.value.target.value]
    decreases |args|
  {
    if |args| > 0 && ArgStep(st, args[0], names, allowed, countryNames).Ok? {
      var next := ArgStep(st, args[0], names, allowed, countryNames).value;
      ArgsFoldTarget(next, args[1..], names, allowed, countryNames);
      assert forall i :: 0 <= i < |args[1..]| ==> args[1..][i] == args[i + 1];
      var parts := Split(args[0], "=");
      if parts[0] == "--blockchain" {
        assert parts == ["--blockchain", parts[1]];
      }
    }
  }

  /** The arguments with their first element (the program) dropped and
      the "--output" flag taken out, or the ValueError of the removal. */
  function Remaining(args: seq<string>): (r: Result<seq<string>, ArgError>)
    requires |args| > 0
    ensures !Contains(Join(args[1..], ""), "--output") ==> r == Ok(args[1..])
    ensures Contains(Join(args[1..], ""), "--output") && "--output" !in args[1..] ==> r == Err(OutputNotAnArgument)
    ensures Contains(Join(args[1..], ""), "--output") && "--output" in args[1..] ==>
      r.Ok? && multiset(r.value) + multiset{"--output"} == multiset(args[1..])
  {
    var rest := args[1..];
    if !Contains(Join(rest, ""), "--output") then Ok(rest)
    else if "--output" !in rest then Err(OutputNotAnArgument)
    else
      RemoveFirstMultiset(rest, "--output");
      Ok(RemoveFirst(rest, "--output"))
  }

  /** `GetArguments` as written. The checks run in the source's order:
      the help flag, the chain names, the mandatory "--blockchain"
      substring, the output flag, then the arguments one by one. */
  function ParseArguments(args: seq<string>, files: seq<string>, registry: seq<RegistryEntry>,
                          countryNames: map<string, string>): (r: Result<Arguments, ArgError>)
    requires |args| > 0
    ensures "--help" in args ==> r == Err(Usage)
    ensures "--help" !in args && "sample.json" !in files ==> r == Err(NoSampleFile)
    ensures "--help" !in args && "sample.json" in files && !Contains(Join(args[1..], ""), "--blockchain") ==>
      r == Err(MissingBlockchain)
    ensures r.Ok? ==> "sample.json" in files && r.value.target in GetBlockchainNames(files).value
    ensures r.Ok? ==> r.value.output == Contains(Join(args[1..], ""), "--output")
    ensures r.Ok? ==> NamesFrom(r.value.providersToTrack, AllowedFrom(registry))
                      && DistinctKeys(r.value.providersToTrack)
    ensures r.Ok? ==> forall k :: k in r.value.countriesToTrack ==>
      k in countryNames && r.value.countriesToTrack[k] == countryNames[k]
    ensures r.Ok? ==> Remaining(args).Ok? && forall a :: a in Remaining(args).value ==> |Split(a, "=")| == 2 && Split(a, "=")[0] in AllowedCommands
    ensures r.Ok? ==> exists a :: a in Remaining(args).value && Split(a, "=") == ["--blockchain", r.value.target]
  {
    if "--help" in args then Err(Usage)
    else
      var names := GetBlockchainNames(files);
      if names.None? then Err(NoSampleFile)
      else if !Contains(Join(args[1..], ""), "--blockchain") then Err(MissingBlockchain)
      else
        match Remaining(args)
        case Err(e) => Err(e)
        case Ok(rest) =>
          var start := ArgState(None, [], map[]);
          assert Gathered(start, names.value, AllowedFrom(registry), countryNames);
          ArgsFoldTarget(start, rest, names.value, AllowedFrom(registry), countryNames);
          match ArgsFold(start, rest, names.value, AllowedFrom(registry), countryNames)
          case Err(e) => Err(e)
          case Ok(st) =>
            if st.target.None? then Err(TargetUnbound)
            else Ok(Arguments(st.target.value, st.providers, st.countries, Contains(Join(args[1..], ""), "--output")))
  }

  /** As written, a "--blockchain" that occurs only inside another
      argument passes the mandatory-flag check, and the chain is then read
      before any argument set it. */
  lemma TargetUnboundAsWritten()
    ensures ParseArguments(["main.py", "--help=--blockchain"], ["sample.json"], [], map[]) == Err(TargetUnbound)
  {
    var arg := "--help=--blockchain";
    ExampleRemaining(arg);
    ExampleFold(arg);
    assert RemoveFirst(["sample.json"], "sample.json") == [];
    assert GetBlockchainNames(["sample.json"]) == Some([]);
    assert "--help" !in ["main.py", arg];
    ParseArgumentsUnbound(["main.py", arg], ["sample.json"], [], map[], [arg]);
  }

  /** A command line that passes the checks before the loop, and whose
      loop succeeds without setting a chain, ends with the chain unbound. */
  lemma ParseArgumentsUnbound(args: seq<string>, files: seq<string>, registry: seq<RegistryEntry>,
                              countryNames: map<string, string>, rest: seq<string>)
    requires |args| > 0 && "--help" !in args && "sample.json" in files
    requires Contains(Join(args[1..], ""), "--blockchain") && Remaining(args) == Ok(rest)
    requires var names := GetBlockchainNames(files).value;
      && ArgsFold(ArgState(None, [], map[]), rest, names, AllowedFrom(registry), countryNames).Ok?
      && ArgsFold(ArgState(None, [], map[]), rest, names, AllowedFrom(registry), countryNames).value.target.None?
    ensures ParseArguments(args, files, registry, countryNames) == Err(TargetUnbound)
  {
  }

  /** The example command line passes the "--blockchain" substring check
      and has no output flag to remove. */
  lemma ExampleRemaining(arg: string)
    requires arg == "--help=--blockchain"
    ensures Contains(Join(["main.py", arg][1..], ""), "--blockchain")
    ensures Remaining(["main.py", arg]) == Ok([arg])
  {
    assert ["main.py", arg][1..] == [arg];
    assert Join([arg], "") == arg;
    ExampleFlags(arg);
  }

  /** The example argument is a help command, which the loop skips, so no
      chain is set. */
  lemma ExampleFold(arg: string)
    requires arg == "--help=--blockchain"
    ensures ArgsFold(ArgState(None, [], map[]), [arg], [], map[], map[]) == Ok(ArgState(None, [], map[]))
  {
    var start := ArgState(None, [], map[]);
    ExampleSplit(arg);
    assert ArgStep(start, arg, [], map[], map[]) == Ok(start);
    assert [arg][1..] == [];
  }

  /** The example argument holds "--blockchain" but not "--output". */
  lemma ExampleFlags(arg: string)
    requires arg == "--help=--blockchain"
    ensures Contains(arg, "--blockchain") && !Contains(arg, "--output")
  {
    assert OccursAt(arg, "--blockchain", 7);
    forall j: nat | j + 8 <= |arg| ensures !OccursAt(arg, "--output", j) {
      assert arg[j..j + 8][2] == arg[j + 2] && arg[j..j + 8][3] == arg[j + 3];
      assert arg[j + 2] != 'o' || arg[j + 3] != 'u';
    }
  }

  /** The example argument splits into the help command and a value. */
  lemma ExampleSplit(arg: string)
    requires arg == "--help=--blockchain"
    ensures Split(arg, "=") == ["--help", "--blockchain"]
  {
    assert arg[..6] == "--help";
    assert IndexOf(arg, "=") == Some(6) by {
      assert OccursAt(arg, "=", 6);
      forall j: nat | j < 6 ensures !OccursAt(arg, "=", j) {
        assert arg[j] == arg[..6][j];
        assert arg[j..j + 1][0] == arg[j];
      }
    }
    var tail := arg[7..];
    assert tail == "--blockchain";
    assert IndexOf(tail, "=").None? by {
      forall j: nat | j < |tail| ensures !OccursAt(tail, "=", j) {
        assert tail[j..j + 1][0] == tail[j];
      }
    }
  }

  /** `GetArguments` as evidently intended: a command line whose
      arguments set no chain is refused as missing the mandatory
      "--blockchain" flag; everything else is as written. */
  function ParseArgumentsChecked(args: seq<string>, files: seq<string>, registry: seq<RegistryEntry>,
                                 countryNames: map<string, string>): (r: Result<Arguments, ArgError>)
    requires |args| > 0
    ensures r.Err? ==> r.error != TargetUnbound
    ensures ParseArguments(args, files, registry, countryNames) == Err(TargetUnbound) ==> r == Err(MissingBlockchain)
    ensures ParseArguments(args, files, registry, countryNames) != Err(TargetUnbound) ==>
      r == ParseArguments(args, files, registry, countryNames)
    ensures r.Ok? ==> exists a :: a in Remaining(args).value && Split(a, "=") == ["--blockchain", r.value.target]
  {
    match ParseArguments(args, files, registry, countryNames)
    case Err(TargetUnbound) => Err(MissingBlockchain)
    case r => r
  }

  /** `GetArguments`, step by step, with the correction of
      `ParseArgumentsChecked`. */
  method GetArguments(args: seq<string>, files: seq<string>, registry: seq<RegistryEntry>,
                      countryNames: map<string, string>) returns (result: Result<Arguments, ArgError>)
    requires |args| > 0
    ensures result == ParseArgumentsChecked(args, files, registry, countryNames)
  {
    if "--help" in args {
      return Err(Usage);
    }
    var rest := args[1..];
    var allowedBlockchains := GetBlockchainNames(files);
    if allowedBlockchains.None? {
      return Err(NoSampleFile);
    }
    var names := allowedBlockchains.value;
    if IndexOf(Join(rest, ""), "--blockchain").None? {
      return Err(MissingBlockchain);
    }
    var allowedProviders := LoadConfigFilesAndGetAllowedProviders(registry);
    var outputMessage := false;
    if IndexOf(Join(rest, ""), "--output").Some? {
      outputMessage := true;
      if "--output" !in rest {
        return Err(OutputNotAnArgument);
      }
      rest := RemoveFirst(rest, "--output");
    }
    assert Remaining(args) == Ok(rest);
    var gathered := ArgsLoop(rest, names, allowedProviders, countryNames);
    if gathered.Err? {
      return Err(gathered.error);
    }
    var st := gathered.value;
    if st.target.None? {
      return Err(MissingBlockchain);
    }
    result := Ok(Arguments(st.target.value, st.providers, st.countries, outputMessage));
  }

  /** The loop over the arguments: the result is `ArgsFold` from nothing
      gathered. */
  method ArgsLoop(rest: seq<string>, names: seq<string>, allowedProviders: map<string, string>,
                  countryNames: map<string, string>) returns (result: Result<ArgState, ArgError>)
    ensures result == ArgsFold(ArgState(None, [], map[]), rest, names, allowedProviders, countryNames)
  {
    var st := ArgState(None, [], map[]);
    var i := 0;
    while i < |rest|
      invariant i <= |rest|
      invariant ArgsFold(ArgState(None, [], map[]), rest, names, allowedProviders, countryNames)
             == ArgsFold(st, rest[i..], names, allowedProviders, countryNames)
    {
      assert rest[i..][1..] == rest[i + 1..];
      var next := ApplyArgument(st, rest[i], names, allowedProviders, countryNames);
      if next.Err? {
        return Err(next.error);
      }
      st := next.value;
      i := i + 1;
    }
    result := Ok(st);
  }

  /** One pass of the argument loop: the result is `ArgStep`. */
  method ApplyArgument(st: ArgState, arg: string, names: seq<string>, allowedProviders: map<string, string>,
                       countryNames: map<string, string>) returns (result: Result<ArgState, ArgError>)
    ensures result == ArgStep(st, arg, names, allowedProviders, countryNames)
  {
    var buff := Split(arg, "=");
    if |buff| != 2 {
      return Err(WrongFormat(arg));
    }
    var command, value := buff[0], buff[1];
    if command !in AllowedCommands {
      return Err(UnsupportedCommand(command));
    }
    result := Ok(st);
    if command == "--blockchain" {
      if value !in names {
        return Err(UnknownBlockchain(value));
      }
      result := Ok(st.(target := Some(value)));
    } else if command == "--providers" {
      var tracked := TrackProviders(st.providers, Split(value, ","), allowedProviders);
      if tracked.Err? {
        return Err(tracked.error);
      }
      result := Ok(st.(providers := tracked.value));
    } else if command == "--countries" {
      var tracked := TrackCountries(st.countries, Split(value, ","), countryNames);
      if tracked.Err? {
        return Err(tracked.error);
      }
      result := Ok(st.(countries := tracked.value));
    }
  }

  /** The `--providers` loop. */
  method TrackProviders(tracked: seq<(string, string)>, codes: seq<string>, allowed: map<string, string>)
    returns (result: Result<seq<(string, string)>, ArgError>)
    ensures result == TrackedProviders(tracked, codes, allowed)
  {
    var providersToTrack := tracked;
    var i := 0;
    while i < |codes|
      invariant i <= |codes|
      invariant TrackedProviders(tracked, codes, allowed) == TrackedProviders(providersToTrack, codes[i..], allowed)
    {
      assert codes[i..][1..] == codes[i + 1..];
      var short := Upper(codes[i]);
      if short !in allowed {
        return Err(UnknownProvider(short));
      }
      providersToTrack := Put(providersToTrack, short, allowed[short]);
      i := i + 1;
    }
    result := Ok(providersToTrack);
  }

  /** The `--countries` loop. */
  method TrackCountries(tracked: map<string, string>, codes: seq<string>, countryNames: map<string, string>)
    returns (result: Result<map<string, string>, ArgError>)
    ensures result == TrackedCountries(tracked, codes, countryNames)
  {
    var countriesToTrack := tracked;
    var i := 0;
    while i < |codes|
      invariant i <= |codes|
      invariant TrackedCountries(tracked, codes, countryNames) == TrackedCountries(countriesToTrack, codes[i..], countryNames)
    {
      assert codes[i..][1..] == codes[i + 1..];
      var short := Upper(codes[i]);
      if short !in countryNames {
        return Err(UnknownCountry(short));
      }
      countriesToTrack := countriesToTrack[short := countryNames[short]];
      i := i + 1;
    }
    result := Ok(countriesToTrack);
  }
}
