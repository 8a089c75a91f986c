/**
 * The Perforce provider: for one server it accepts only the refs `#head`
 * and `@<changelist>`, logs in with the user's password (trusting the
 * server's fingerprint first when it is an `ssl:` server), reads the view
 * of a template client, and resolves the ref to the highest-numbered
 * changelist among those `p4 changes` reports for the view with the ref
 * appended. It fetches no files. `post` logs out and revokes the trust it
 * recorded, ignoring failures.
 *
 * `p4.exe` is the record `P4`: the exit code of each command and, for the
 * commands whose JSON output is read, the decoded records. Saved state is
 * the record `PerforceState`.
 */
module Perforce {
  import opened Wrappers
  import opened Strings
  import opened Types

  // ---------------------------------------------------------------------------
  // The ref

  /** `ref === '#head'`, or `ref` matches `^@\d+$`. */
  predicate ValidRef(ref: string) {
    ref == "#head" || (|ref| >= 2 && ref[0] == '@' && AllDigits(ref[1..]))
  }

  /** Every changelist number, written after `@`, is a valid ref. */
  lemma ChangelistRefValid(n: nat)
    ensures ValidRef("@" + NatToString(n))
  {
    var r := "@" + NatToString(n);
    assert r[1..] == NatToString(n);
  }

  /** A valid ref other than `#head` is `@` followed by a non-empty run of
      digits, and nothing else is. */
  lemma ValidRefShape(ref: string)
    ensures ValidRef(ref) <==>
      || ref == "#head"
      || exists digits :: digits != [] && AllDigits(digits) && ref == "@" + digits
  {
    if |ref| >= 2 && ref[0] == '@' && AllDigits(ref[1..]) {
      assert ref == "@" + ref[1..];
    }
    if exists digits :: digits != [] && AllDigits(digits) && ref == "@" + digits {
      var digits :| digits != [] && AllDigits(digits) && ref == "@" + digits;
      assert ref[1..] == digits;
    }
  }

  lemma ValidRefExamples()
    ensures ValidRef("#head") && ValidRef("@12345")
    ensures !ValidRef("@") && !ValidRef("#HEAD") && !ValidRef("12345") && !ValidRef("@12a")
  {
    assert "@12345"[1..] == "12345";
    assert "@12a"[1..][2] == 'a';
  }

  // ---------------------------------------------------------------------------
  // Inputs and answers

  /** The environment variables the provider reads; "" is unset. */
  datatype PerforceEnv = PerforceEnv(
    user: string, password: string, clientTemplate: string, fingerprint: string,
    githubRepository: Option<string>)

  /** One field of a client spec, in the order `p4` writes them. */
  datatype Field = Field(key: string, value: string)

  /** A changelist record: its number and its time in seconds. */
  datatype Change = Change(change: nat, time: int)

  /** A finished `p4.exe` run: its exit code and its decoded JSON records. */
  datatype Exec<T> = Exec(exitCode: nat, records: seq<T>)

  /** The commands the provider runs: `trust` gets port and fingerprint,
      `login` port, user and password, `client` port, user and template,
      `changes` port, user and the view list. */
  datatype P4 = P4(
    trust: (string, string) -> nat,
    login: (string, string, string) -> nat,
    client: (string, string, string) -> Exec<seq<Field>>,
    changes: (string, string, seq<string>) -> Exec<Change>)

  /** What `run` saves for `post`; "" is not saved. */
  datatype PerforceState = PerforceState(trustPort: string, loginPort: string, loginUser: string)

  const NothingSaved := PerforceState("", "", "")

  const SingleRepository := "Perforce provider only supports a single repository"
  const NoFiles := "Perforce provider does not support fetching files yet"
  const MissingTemplate := "Repository must set the p4-client-template input in its workflow"
  const NoChangelist := "Failed to find a suitable changelist"
  /** `repositories[0].startsWith` on an empty list. */
  const NoServer := "Cannot read properties of undefined (reading 'startsWith')"

  function Unsupported(ref: string): string {
    "Unsupported perforce ref '" + ref + "'"
  }

  function MissingSecret(name: string, env: PerforceEnv): string {
    "Repository must set the " + name + " secret at https://github.com/"
    + Interpolated(env.githubRepository) + "/settings/secrets/actions"
  }

  function MissingFingerprint(env: PerforceEnv): string {
    "Repository must set the PEW_P4PORT_FINGERPRINT variable at https://github.com/"
    + Interpolated(env.githubRepository) + "/settings/variables/actions"
  }

  function ExitError(code: nat): string {
    "p4.exe returned error " + NatToString(code)
  }

  // ---------------------------------------------------------------------------
  // The view list

  function Malformed(view: seq<string>): string {
    "Malformed client view '" + Join(view, ',') + "'"
  }

  /** One field's contribution: nothing for a key not starting with `View`,
      the first of exactly two space-separated parts with the ref appended
      for one that does, and an error otherwise. */
  function ViewOf(field: Field, ref: string): Result<seq<string>> {
    if !StartsWith(field.key, "View") then Ok([])
    else
      var view := Split(field.value, ' ');
      if |view| != 2 then Err(Malformed(view)) else Ok([view[0] + ref])
  }

  /** The view list of a client spec, or the first malformed view's error. */
  function Views(fields: seq<Field>, ref: string): Result<seq<string>>
    decreases |fields|
  {
    if fields == [] then Ok([])
    else
      match Views(fields[..|fields| - 1], ref)
      case Err(m) => Err(m)
      case Ok(views) =>
        match ViewOf(fields[|fields| - 1], ref)
        case Err(m) => Err(m)
        case Ok(v) => Ok(views + v)
  }

  /** The `for...in` loop over the client spec. */
  method ViewSpec(fields: seq<Field>, ref: string) returns (r: Result<seq<string>>)
    ensures r == Views(fields, ref)
  {
    var viewSpec: seq<string> := [];
    var i := 0;
    while i < |fields|
      invariant 0 <= i <= |fields|
      invariant Views(fields[..i], ref) == Ok(viewSpec)
    {
      assert fields[..i + 1][..i] == fields[..i];
      if StartsWith(fields[i].key, "View") {
        var view := Split(fields[i].value, ' ');
        if |view| != 2 {
          ViewsStopAt(fields, i + 1, ref);
          return Err(Malformed(view));
        }
        assert ViewOf(fields[i], ref) == Ok([view[0] + ref]);
        viewSpec := viewSpec + [view[0] + ref];
      } else {
        assert ViewOf(fields[i], ref) == Ok([]);
        assert viewSpec + [] == viewSpec;
      }
      i := i + 1;
    }
    assert fields[..i] == fields;
    r := Ok(viewSpec);
  }

  lemma {:induction false} ViewsStopAt(fields: seq<Field>, n: nat, ref: string)
    requires n <= |fields| && Views(fields[..n], ref).Err?
    ensures Views(fields, ref) == Views(fields[..n], ref)
    decreases |fields| - n
  {
    if n < |fields| {
      var init := fields[..|fields| - 1];
      assert init[..n] == fields[..n];
      ViewsStopAt(init, n, ref);
    } else {
      assert fields[..n] == fields;
    }
  }

  /** The view list builds iff no `View` field is malformed. */
  lemma {:induction false} ViewsSucceedIffWellFormed(fields: seq<Field>, ref: string)
    ensures Views(fields, ref).Ok? <==> forall i :: 0 <= i < |fields| ==> ViewOf(fields[i], ref).Ok?
    decreases |fields|
  {
    if fields != [] {
      var init := fields[..|fields| - 1];
      ViewsSucceedIffWellFormed(init, ref);
      assert forall i :: 0 <= i < |init| ==> init[i] == fields[i];
    }
  }

  /** A well-formed view `depot client` gives back its depot side with the ref. */
  lemma ViewOfMapping(key: string, depot: string, client: string, ref: string)
    requires StartsWith(key, "View") && ' ' !in depot && ' ' !in client
    ensures ViewOf(Field(key, depot + " " + client), ref) == Ok([depot + ref])
  {
    SplitJoin([depot, client], ' ');
    assert Join([depot, client], ' ') == depot + " " + client;
  }

  /** When the view list builds, it holds one entry per `View` field, in
      field order: entry k is the depot side (the first space-separated part)
      of the k-th `View` field with the ref appended; `idx` gives, for each
      entry, the field it came from. Other fields add nothing. */
  lemma {:induction false} ViewsOnePerView(fields: seq<Field>, ref: string) returns (idx: seq<nat>)
    requires Views(fields, ref).Ok?
    ensures |idx| == |Views(fields, ref).value| == CountViews(fields)
    ensures forall k :: 0 <= k < |idx| ==>
      && idx[k] < |fields| && StartsWith(fields[idx[k]].key, "View")
      && Views(fields, ref).value[k] == Split(fields[idx[k]].value, ' ')[0] + ref
    ensures forall k, l :: 0 <= k < l < |idx| ==> idx[k] < idx[l]
    ensures forall i :: 0 <= i < |fields| && StartsWith(fields[i].key, "View") ==> i in idx
    decreases |fields|
  {
    if fields == [] {
      idx := [];
    } else {
      var n := |fields| - 1;
      var init := fields[..n];
      ViewsStep(fields, ref);
      var prev := ViewsOnePerView(init, ref);
      assert forall i :: 0 <= i < n ==> init[i] == fields[i];
      var vs := Views(fields, ref).value;
      var before := Views(init, ref).value;
      if StartsWith(fields[n].key, "View") {
        idx := prev + [n];
        forall k | 0 <= k < |idx|
          ensures && idx[k] < |fields| && StartsWith(fields[idx[k]].key, "View")
                  && vs[k] == Split(fields[idx[k]].value, ' ')[0] + ref
        {
          if k < |prev| {
            assert idx[k] == prev[k] && vs[k] == before[k];
          }
        }
        forall i | 0 <= i < |fields| && StartsWith(fields[i].key, "View")
          ensures i in idx
        {
          if i < n {
            assert StartsWith(init[i].key, "View") && i in prev;
          } else {
            assert idx[|prev|] == i;
          }
        }
      } else {
        idx := prev;
        forall i | 0 <= i < |fields| && StartsWith(fields[i].key, "View")
          ensures i in idx
        {
          assert i < n && StartsWith(init[i].key, "View");
        }
      }
    }
  }

  /** The view list of a non-empty field list extends that of its prefix
      with the last field's contribution. */
  lemma ViewsStep(fields: seq<Field>, ref: string)
    requires fields != [] && Views(fields, ref).Ok?
    ensures var last := fields[|fields| - 1];
      && Views(fields[..|fields| - 1], ref).Ok?
      && Views(fields, ref).value == Views(fields[..|fields| - 1], ref).value
           + if StartsWith(last.key, "View") then [Split(last.value, ' ')[0] + ref] else []
  {
  }

  /** The number of fields whose key starts with `View`. */
  function CountViews(fields: seq<Field>): nat
    decreases |fields|
  {
    if fields == [] then 0
    else CountViews(fields[..|fields| - 1]) + if StartsWith(fields[|fields| - 1].key, "View") then 1 else 0
  }

  // ---------------------------------------------------------------------------
  // The latest changelist

  /** The running maximum: a later change replaces the kept one only when
      its number is strictly greater. */
  function Latest(changes: seq<Change>): Option<Change>
    decreases |changes|
  {
    if changes == [] then None
    else
      var last := changes[|changes| - 1];
      match Latest(changes[..|changes| - 1])
      case None => Some(last)
      case Some(kept) => if last.change > kept.change then Some(last) else Some(kept)
  }

  /** The loop over the changes. */
  method LatestChange(changes: seq<Change>) returns (recent: Option<Change>)
    ensures recent == Latest(changes)
  {
    recent := None;
    var i := 0;
    while i < |changes|
      invariant 0 <= i <= |changes|
      invariant recent == Latest(changes[..i])
    {
      assert changes[..i + 1][..i] == changes[..i];
      var cl := changes[i].change;
      if recent.None? || cl > recent.value.change {
        recent := Some(changes[i]);
      }
      i := i + 1;
    }
    assert changes[..i] == changes;
  }

  /** The change chosen is the first one with the greatest number; there is
      none only when the list is empty. */
  lemma {:induction false} LatestIsFirstMaximum(changes: seq<Change>)
    ensures Latest(changes).None? <==> changes == []
    ensures Latest(changes).Some? ==> exists i ::
      && 0 <= i < |changes| && changes[i] == Latest(changes).value
      && (forall j :: 0 <= j < |changes| ==> changes[j].change <= changes[i].change)
      && (forall j :: 0 <= j < i ==> changes[j].change < changes[i].change)
    decreases |changes|
  {
    if changes != [] {
      var init := changes[..|changes| - 1];
      var n := |changes| - 1;
      LatestIsFirstMaximum(init);
      if Latest(init).Some? {
        var i :| 0 <= i < |init| && init[i] == Latest(init).value
          && (forall j :: 0 <= j < |init| ==> init[j].change <= init[i].change)
          && (forall j :: 0 <= j < i ==> init[j].change < init[i].change);
        if changes[n].change > init[i].change {
          assert forall j :: 0 <= j < n ==> changes[j].change < changes[n].change by {
            forall j | 0 <= j < n ensures changes[j].change < changes[n].change {
              assert changes[j] == init[j];
            }
          }
        } else {
          assert changes[i] == init[i];
          forall j | 0 <= j < |changes| ensures changes[j].change <= changes[i].change {
            if j < n { assert changes[j] == init[j]; }
          }
          forall j | 0 <= j < i ensures changes[j].change < changes[i].change {
            assert changes[j] == init[j];
          }
        }
      }
    }
  }

  /** The example of two changes tied at the top: the earlier one is kept. */
  lemma LatestKeepsFirstOfTie()
    ensures Latest([Change(7, 10), Change(9, 20), Change(9, 30), Change(3, 40)]) == Some(Change(9, 20))
  {
    var s1 := [Change(7, 10)];
    assert s1[..0] == [];
    assert Latest(s1) == Some(Change(7, 10));
    var s2 := s1 + [Change(9, 20)];
    assert s2[..1] == s1;
    assert Latest(s2) == Some(Change(9, 20));
    var s3 := s2 + [Change(9, 30)];
    assert s3[..2] == s2;
    assert Latest(s3) == Some(Change(9, 20));
    var s4 := s3 + [Change(3, 40)];
    assert s4[..3] == s3;
    assert s4 == [Change(7, 10), Change(9, 20), Change(9, 30), Change(3, 40)];
  }

  /** The information `run` returns for a changelist. */
  function ChangeInfo(c: Change): (info: RepositoryInfo)
    ensures info.commit == "@" + NatToString(c.change) && ValidRef(info.commit)
    ensures info.commitDate == c.time * 1000 && info.token == "p4ticket" && info.files == []
  {
    ChangelistRefValid(c.change);
    RepositoryInfo("@" + NatToString(c.change), c.time * 1000, "p4ticket", [])
  }

  // ---------------------------------------------------------------------------
  // `run` and `post`

  /** The first client spec, or none: `for...in` over `undefined` does nothing. */
  function FirstSpec(specs: seq<seq<Field>>): seq<Field> {
    if specs == [] then [] else specs[0]
  }

  /** The guards that come before any command runs, in their order. */
  function Guard(repositories: seq<string>, ref: string, files: seq<string>, env: PerforceEnv): (r: Option<string>)
    ensures |repositories| > 1 ==> r == Some(SingleRepository)
    ensures |repositories| <= 1 && |files| > 0 ==> r == Some(NoFiles)
    ensures |repositories| <= 1 && files == [] && !ValidRef(ref) ==> r == Some(Unsupported(ref))
    ensures |repositories| <= 1 && files == [] && ValidRef(ref) ==>
      && (env.user == "" ==> r == Some(MissingSecret("PEW_P4USER", env)))
      && (env.user != "" && env.password == "" ==> r == Some(MissingSecret("PEW_P4PASS", env)))
      && (env.user != "" && env.password != "" && env.clientTemplate == "" ==> r == Some(MissingTemplate))
      && (env.user != "" && env.password != "" && env.clientTemplate != "" ==>
            && (repositories == [] ==> r == Some(NoServer))
            && (repositories != [] && StartsWith(repositories[0], "ssl:") && env.fingerprint == "" ==>
                  r == Some(MissingFingerprint(env))))
    ensures r.None? <==> && |repositories| == 1 && files == [] && ValidRef(ref)
                         && env.user != "" && env.password != "" && env.clientTemplate != ""
                         && (StartsWith(repositories[0], "ssl:") ==> env.fingerprint != "")
  {
    if |repositories| > 1 then Some(SingleRepository)
    else if |files| > 0 then Some(NoFiles)
    else if !ValidRef(ref) then Some(Unsupported(ref))
    else if env.user == "" then Some(MissingSecret("PEW_P4USER", env))
    else if env.password == "" then Some(MissingSecret("PEW_P4PASS", env))
    else if env.clientTemplate == "" then Some(MissingTemplate)
    else if repositories == [] then Some(NoServer)
    else if StartsWith(repositories[0], "ssl:") && env.fingerprint == "" then Some(MissingFingerprint(env))
    else None
  }

  /** The state saved once the server is trusted (when it is an `ssl:`
      one) and, when `loggedIn`, once the login succeeded. */
  function Saved(server: string, user: string, loggedIn: bool): PerforceState {
    PerforceState(if StartsWith(server, "ssl:") then server else "",
                  if loggedIn then server else "", if loggedIn then user else "")
  }

  /** `run`: every path gives its own error and keeps what was saved before
      it failed, and the run succeeds iff every command exits 0, the view
      list builds and at least one change is listed. */
  method Run(repositories: seq<string>, ref: string, files: seq<string>, env: PerforceEnv, p4: P4)
    returns (r: Result<RepositoryInfo>, state: PerforceState)
    ensures Guard(repositories, ref, files, env).Some? ==>
      r == Err(Guard(repositories, ref, files, env).value) && state == NothingSaved
    ensures Guard(repositories, ref, files, env).None? && StartsWith(repositories[0], "ssl:") ==>
      var code := p4.trust(repositories[0], env.fingerprint);
      code != 0 ==> r == Err(ExitError(code)) && state == NothingSaved
    ensures Guard(repositories, ref, files, env).None? ==>
      var server := repositories[0];
      && (StartsWith(server, "ssl:") ==> p4.trust(server, env.fingerprint) == 0)
      && p4.login(server, env.user, env.password) != 0
      ==> r == Err(ExitError(p4.login(server, env.user, env.password))) && state == Saved(server, env.user, false)
    ensures Guard(repositories, ref, files, env).None? ==>
      var server := repositories[0];
      && (StartsWith(server, "ssl:") ==> p4.trust(server, env.fingerprint) == 0)
      && p4.login(server, env.user, env.password) == 0
      ==>
      var specs := p4.client(server, env.user, env.clientTemplate);
      var views := Views(FirstSpec(specs.records), ref);
      && state == Saved(server, env.user, true)
      && (specs.exitCode != 0 ==> r == Err(ExitError(specs.exitCode)))
      && (specs.exitCode == 0 && views.Err? ==> r == Err(views.message))
      && (specs.exitCode == 0 && views.Ok? ==>
            var changes := p4.changes(server, env.user, views.value);
            && (changes.exitCode != 0 ==> r == Err(ExitError(changes.exitCode)))
            && (changes.exitCode == 0 && changes.records == [] ==> r == Err(NoChangelist))
            && (changes.exitCode == 0 && changes.records != [] ==>
                  r == Ok(ChangeInfo(Latest(changes.records).value))))
    ensures r.Ok? <==>
      && Guard(repositories, ref, files, env).None?
      && var server := repositories[0];
         var specs := p4.client(server, env.user, env.clientTemplate);
         var views := Views(FirstSpec(specs.records), ref);
      && (StartsWith(server, "ssl:") ==> p4.trust(server, env.fingerprint) == 0)
      && p4.login(server, env.user, env.password) == 0
      && specs.exitCode == 0
      && views.Ok?
      && p4.changes(server, env.user, views.value).exitCode == 0
      && p4.changes(server, env.user, views.value).records != []
  {
    state := NothingSaved;
    var guard := Guard(repositories, ref, files, env);
    if guard.Some? {
      return Err(guard.value), state;
    }
    var server := repositories[0];
    if StartsWith(server, "ssl:") {
      var code := p4.trust(server, env.fingerprint);
      if code != 0 {
        return Err(ExitError(code)), state;
      }
      state := state.(trustPort := server);
    }
    var code := p4.login(server, env.user, env.password);
    if code != 0 {
      return Err(ExitError(code)), state;
    }
    state := state.(loginPort := server, loginUser := env.user);
    var specs := p4.client(server, env.user, env.clientTemplate);
    if specs.exitCode != 0 {
      return Err(ExitError(specs.exitCode)), state;
    }
    var views := ViewSpec(FirstSpec(specs.records), ref);
    if views.Err? {
      return Err(views.message), state;
    }
    var changes := p4.changes(server, env.user, views.value);
    if changes.exitCode != 0 {
      return Err(ExitError(changes.exitCode)), state;
    }
    var recent := LatestChange(changes.records);
    LatestIsFirstMaximum(changes.records);
    if recent.None? {
      return Err(NoChangelist), state;
    }
    r := Ok(ChangeInfo(recent.value));
  }

  /** A `p4` command `post` runs. */
  datatype Cleanup = Logout(port: string, user: string) | RevokeTrust(port: string)

  /** `post`: log out when both the login port and user were saved, then
      revoke trust when the trust port was saved. Failures are ignored, so
      the commands are all there is to it. */
  function Post(state: PerforceState): (cmds: seq<Cleanup>)
    ensures Logout(state.loginPort, state.loginUser) in cmds <==> state.loginPort != "" && state.loginUser != ""
    ensures RevokeTrust(state.trustPort) in cmds <==> state.trustPort != ""
    ensures forall c :: c in cmds ==> c == Logout(state.loginPort, state.loginUser) || c == RevokeTrust(state.trustPort)
    ensures |cmds| == (if state.loginPort != "" && state.loginUser != "" then 1 else 0) + (if state.trustPort != "" then 1 else 0)
    ensures |cmds| == 2 ==> cmds[0].Logout?
  {
    (if state.loginPort != "" && state.loginUser != "" then [Logout(state.loginPort, state.loginUser)] else [])
    + (if state.trustPort != "" then [RevokeTrust(state.trustPort)] else [])
  }

  /** Whatever state `run` left, `post` logs out of the server iff the login
      succeeded and the server name is not empty (an empty saved value reads
      as unset), and then revokes its trust iff it is an `ssl:` server. */
  lemma PostAfterRun(server: string, user: string, loggedIn: bool)
    requires user != ""
    ensures Post(Saved(server, user, loggedIn))
      == (if loggedIn && server != "" then [Logout(server, user)] else [])
         + (if StartsWith(server, "ssl:") then [RevokeTrust(server)] else [])
  {
  }
}
