/**
 * `collectSessionEnvVars` (pkg/server/envvars.go): the API credentials of every
 * exchange session become two environment variables, and are then wiped from
 * the session so they are not written back into the configuration file.
 */
module EnvVars {
  import opened Wrappers
  import opened Text

  /** An exchange session: its name and variable prefix are fixed, its credentials are cleared in place. */
  class Session {
    const Name: string
    const EnvVarPrefix: string
    var Key: string
    var Secret: string

    constructor(name: string, envVarPrefix: string, key: string, secret: string)
      ensures Name == name && EnvVarPrefix == envVarPrefix && Key == key && Secret == secret
    {
      Name := name;
      EnvVarPrefix := envVarPrefix;
      Key := key;
      Secret := secret;
    }
  }

  /** What the mapping reads from one session. */
  datatype Credentials = Credentials(name: string, envVarPrefix: string, key: string, secret: string)

  function Snapshot(s: Session): Credentials
    reads s
  {
    Credentials(s.Name, s.EnvVarPrefix, s.Key, s.Secret)
  }

  function Snapshots(ss: seq<Session>): (cs: seq<Credentials>)
    reads set s | s in ss
    ensures |cs| == |ss| && forall i :: 0 <= i < |ss| ==> cs[i] == Snapshot(ss[i])
  {
    seq(|ss|, i reads set s | s in ss requires 0 <= i < |ss| => Snapshot(ss[i]))
  }

  datatype SessionError =
    | MissingCredentials(name: string)  // both key and secret are empty
    | MissingName(name: string)         // neither a prefix nor a name to build the variables from

  /** The prefix of the session's variables: its own prefix verbatim, else its name upper-cased. */
  function VarPrefix(c: Credentials): (p: Option<string>)
    ensures |c.envVarPrefix| > 0 ==> p == Some(c.envVarPrefix)
    ensures |c.envVarPrefix| == 0 && |c.name| > 0 ==> p == Some(ToUpper(c.name))
    ensures p.None? <==> |c.envVarPrefix| == 0 && |c.name| == 0
    ensures p.Some? ==> |p.value| > 0
  {
    if |c.envVarPrefix| > 0 then Some(c.envVarPrefix)
    else if |c.name| > 0 then Some(ToUpper(c.name))
    else None
  }

  function KeyVar(prefix: string): string { prefix + "_API_KEY" }

  function SecretVar(prefix: string): string { prefix + "_API_SECRET" }

  /** The two variable names of a prefix never coincide, and different prefixes give different names. */
  lemma VarNamesAreDistinct(p: string, q: string)
    ensures KeyVar(p) != SecretVar(q)
    ensures KeyVar(p) == KeyVar(q) <==> p == q
    ensures SecretVar(p) == SecretVar(q) <==> p == q
  {
    var kp, sq := KeyVar(p), SecretVar(q);
    assert kp[|kp| - 1] == 'Y' && sq[|sq| - 1] == 'T';
    if KeyVar(p) == KeyVar(q) {
      assert p == KeyVar(p)[..|p|] && q == KeyVar(q)[..|q|];
    }
    if SecretVar(p) == SecretVar(q) {
      assert p == SecretVar(p)[..|p|] && q == SecretVar(q)[..|q|];
    }
  }

  /** A session that stops the loop. */
  function Failure(c: Credentials): (e: Option<SessionError>)
    ensures e == Some(MissingCredentials(c.name)) <==> |c.key| == 0 && |c.secret| == 0
    ensures e.None? <==> (|c.key| > 0 || |c.secret| > 0) && VarPrefix(c).Some?
  {
    if |c.key| == 0 && |c.secret| == 0 then Some(MissingCredentials(c.name))
    else if VarPrefix(c).None? then Some(MissingName(c.name))
    else None
  }

  /** The map so far, the error if any, and how many sessions were processed (and so wiped). */
  datatype Collected = Collected(env: map<string, string>, err: Option<SessionError>, processed: nat)

  /** The loop over the sessions, read as a function of their credentials in iteration order. */
  function Collect(cs: seq<Credentials>): (r: Collected)
    ensures r.processed <= |cs|
    ensures forall i :: 0 <= i < r.processed ==> Failure(cs[i]).None?
    ensures r.err.None? <==> r.processed == |cs|
    ensures r.err.Some? ==> r.err == Failure(cs[r.processed])
  {
    if cs == [] then Collected(map[], None, 0)
    else
      var before := Collect(cs[..|cs| - 1]);
      var c := cs[|cs| - 1];
      if before.err.Some? then before
      else if Failure(c).Some? then Collected(before.env, Failure(c), before.processed)
      else
        var p := VarPrefix(c).value;
        Collected(before.env[KeyVar(p) := c.key][SecretVar(p) := c.secret], None, before.processed + 1)
  }

  /** After an error nothing more happens: later sessions are neither read nor wiped. */
  lemma {:induction false} CollectStopsAtError(cs: seq<Credentials>, n: nat)
    requires n <= |cs| && Collect(cs[..n]).err.Some?
    ensures Collect(cs) == Collect(cs[..n])
  {
    if n < |cs| {
      CollectStopsAtError(cs[..|cs| - 1], n);
      assert cs[..|cs| - 1][..n] == cs[..n];
    } else {
      assert cs[..n] == cs;
    }
  }

  /** The variables set are exactly the key and secret variables of the sessions processed. */
  lemma {:induction false} CollectedNames(cs: seq<Credentials>, name: string)
    ensures name in Collect(cs).env <==>
      exists i :: 0 <= i < Collect(cs).processed && VarPrefix(cs[i]).Some? &&
        (name == KeyVar(VarPrefix(cs[i]).value) || name == SecretVar(VarPrefix(cs[i]).value))
  {
    if cs != [] {
      var front := cs[..|cs| - 1];
      CollectedNames(front, name);
      var before := Collect(front);
      assert forall i :: 0 <= i < before.processed ==> front[i] == cs[i];
    }
  }

  /**
   * The variables of a processed session hold its key and secret, unless a
   * later session with the same prefix overwrote them.
   */
  lemma {:induction false} CollectedValues(cs: seq<Credentials>, i: nat)
    requires i < Collect(cs).processed
    requires forall j :: i < j < Collect(cs).processed ==> VarPrefix(cs[j]) != VarPrefix(cs[i])
    ensures KeyVar(VarPrefix(cs[i]).value) in Collect(cs).env
    ensures Collect(cs).env[KeyVar(VarPrefix(cs[i]).value)] == cs[i].key
    ensures SecretVar(VarPrefix(cs[i]).value) in Collect(cs).env
    ensures Collect(cs).env[SecretVar(VarPrefix(cs[i]).value)] == cs[i].secret
  {
    var front := cs[..|cs| - 1];
    var before := Collect(front);
    var p := VarPrefix(cs[i]).value;
    assert forall j :: 0 <= j < before.processed ==> front[j] == cs[j];
    if i < before.processed {
      CollectedValues(front, i);
      if before.err.None? && Failure(cs[|cs| - 1]).None? {
        var q := VarPrefix(cs[|cs| - 1]).value;
        assert before.processed == |cs| - 1;
        VarNamesAreDistinct(p, q);
        VarNamesAreDistinct(q, p);
      }
    } else {
      VarNamesAreDistinct(p, p);
    }
  }

  /** One more session that stops the loop. */
  lemma CollectAtFailure(cs: seq<Credentials>, i: nat, env: map<string, string>)
    requires i < |cs| && Collect(cs[..i]) == Collected(env, None, i)
    requires Failure(cs[i]).Some?
    ensures Collect(cs[..i + 1]) == Collected(env, Failure(cs[i]), i)
  {
    assert cs[..i + 1][..i] == cs[..i];
  }

  /** One more session that is processed. */
  lemma CollectAtSuccess(cs: seq<Credentials>, i: nat, env: map<string, string>)
    requires i < |cs| && Collect(cs[..i]) == Collected(env, None, i)
    requires Failure(cs[i]).None?
    ensures var p := VarPrefix(cs[i]).value;
      Collect(cs[..i + 1]) == Collected(env[KeyVar(p) := cs[i].key][SecretVar(p) := cs[i].secret], None, i + 1)
  {
    assert cs[..i + 1][..i] == cs[..i];
  }

  /** A session with its own prefix: the variables are named after that prefix exactly as written. */
  lemma PrefixIsVerbatim()
    ensures Collect([Credentials("max", "MAX_MAIN", "k", "s")]).env
      == map["MAX_MAIN_API_KEY" := "k", "MAX_MAIN_API_SECRET" := "s"]
  {
    var cs := [Credentials("max", "MAX_MAIN", "k", "s")];
    assert cs[..0] == [];
    assert KeyVar("MAX_MAIN") == "MAX_MAIN_API_KEY" && SecretVar("MAX_MAIN") == "MAX_MAIN_API_SECRET";
    assert Collect(cs).env == map[][KeyVar("MAX_MAIN") := "k"][SecretVar("MAX_MAIN") := "s"];
  }

  /** A session with only a name: the variables are named after the name in upper case. */
  lemma NameIsUpperCased()
    ensures Collect([Credentials("binance", "", "k", "")]).env
      == map["BINANCE_API_KEY" := "k", "BINANCE_API_SECRET" := ""]
  {
    var cs := [Credentials("binance", "", "k", "")];
    assert cs[..0] == [];
    assert ToUpper("binance") == "BINANCE";
    assert KeyVar("BINANCE") == "BINANCE_API_KEY" && SecretVar("BINANCE") == "BINANCE_API_SECRET";
    assert Collect(cs).env == map[][KeyVar("BINANCE") := "k"][SecretVar("BINANCE") := ""];
  }

  /**
   * The loop itself. Every session processed has its key and secret reset;
   * on an error the sessions not yet reached keep theirs, and the variables
   * collected so far are returned with the error.
   */
  method CollectSessionEnvVars(sessions: seq<Session>) returns (envVars: map<string, string>, err: Option<SessionError>)
    requires forall i, j :: 0 <= i < j < |sessions| ==> sessions[i] != sessions[j]
    modifies set s | s in sessions
    ensures var r := Collect(old(Snapshots(sessions))); envVars == r.env && err == r.err
    ensures forall i :: 0 <= i < Collect(old(Snapshots(sessions))).processed ==>
      sessions[i].Key == "" && sessions[i].Secret == ""
    ensures forall i :: Collect(old(Snapshots(sessions))).processed <= i < |sessions| ==>
      sessions[i].Key == old(sessions[i].Key) && sessions[i].Secret == old(sessions[i].Secret)
  {
    ghost var cs := Snapshots(sessions);
    envVars := map[];
    err := None;
    var i := 0;
    while i < |sessions|
      invariant 0 <= i <= |sessions|
      invariant Collect(cs[..i]) == Collected(envVars, None, i)
      invariant forall j :: 0 <= j < i ==> sessions[j].Key == "" && sessions[j].Secret == ""
      invariant forall j :: i <= j < |sessions| ==> sessions[j].Key == cs[j].key && sessions[j].Secret == cs[j].secret
    {
      var session := sessions[i];
      assert Snapshot(session) == cs[i];
      if |session.Key| == 0 && |session.Secret| == 0 {
        err := Some(MissingCredentials(session.Name));
        CollectAtFailure(cs, i, envVars);
        CollectStopsAtError(cs, i + 1);
        return;
      }
      var prefix: string;
      if |session.EnvVarPrefix| > 0 {
        prefix := session.EnvVarPrefix;
      } else if |session.Name| > 0 {
        prefix := ToUpper(session.Name);
      } else {
        err := Some(MissingName(session.Name));
        CollectAtFailure(cs, i, envVars);
        CollectStopsAtError(cs, i + 1);
        return;
      }
      ghost var before := envVars;
      envVars := envVars[prefix + "_API_KEY" := session.Key];
      envVars := envVars[prefix + "_API_SECRET" := session.Secret];
      CollectAtSuccess(cs, i, before);
      assert forall j :: 0 <= j < |sessions| && j != i ==> sessions[j] != session;
      session.Key := "";
      session.Secret := "";
      i := i + 1;
    }
    assert cs[..i] == cs;
  }
}
