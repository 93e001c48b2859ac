/**
 * The server selection of the proxy-service upgrade script: the two environments with
 * their application servers, and the validation of the comma-separated `--servers` value.
 */
module UpgradeCpService {
  import opened Wrappers
  import opened Strings

  /** A deployment environment: its test wiki and the servers the script may upgrade. */
  datatype Environment = Environment(wikidbname: string, wikiurl: string, servers: seq<string>)

  const Beta: Environment := Environment("metawikibeta", "meta.mirabeta.org", ["test151"])

  const Prod: Environment := Environment("testwiki", "publictestwiki.com", [
    "mw151", "mw152", "mw161", "mw162", "mw171", "mw172", "mw181", "mw182", "mwtask171", "mwtask181"])

  const Environments: map<string, Environment> := map["beta" := Beta, "prod" := Prod]

  /** Beta has the single server test151; prod has ten distinct servers; no server is in both. */
  lemma EnvironmentsTable()
    ensures Environments.Keys == {"beta", "prod"}
    ensures Environments["beta"].servers == ["test151"]
    ensures |Environments["prod"].servers| == 10
    ensures forall i, j :: 0 <= i < j < |Prod.servers| ==> Prod.servers[i] != Prod.servers[j]
    ensures forall s :: s in Prod.servers ==> s !in Beta.servers
    ensures "all" !in Prod.servers && "all" !in Beta.servers
  {
  }

  /** The names that are not valid servers, as the error reports them. */
  datatype ServersError = InvalidChoices(names: set<string>)

  /** The distinct names of a list. */
  function Names(servers: seq<string>): set<string> {
    set s | s in servers
  }

  /**
   * Parses `--servers`: the value split on commas; `all` anywhere selects every valid
   * server; otherwise a name that is not a valid server is an error listing all such
   * names, and a valid list is kept as given, order and repeats included.
   */
  function ParseServers(values: string, validServers: seq<string>): (r: Result<seq<string>, ServersError>)
    ensures var requested := Split(values, ',');
      && ("all" in requested ==> r == Success(validServers))
      && ("all" !in requested && r.Success? ==> r.value == requested)
      && (r.Failure? <==> "all" !in requested && exists s :: s in requested && s !in validServers)
      && (r.Failure? ==> r.error.names == Names(requested) - Names(validServers) && r.error.names != {})
      && (r.Success? ==> forall s :: s in r.value ==> s in validServers)
  {
    var requested := Split(values, ',');
    var selected := if "all" in requested then validServers else requested;
    var invalid := Names(selected) - Names(validServers);
    if invalid != {} then
      Failure(InvalidChoices(invalid))
    else
      assert forall s :: s in selected && s !in validServers ==> s in invalid;
      Success(selected)
  }

  /** `all` in an environment selects exactly its servers, and a listed server of it is accepted alone. */
  lemma SelectFromEnvironment(env: string, server: string)
    requires env in Environments && server in Environments[env].servers
    ensures ParseServers("all", Environments[env].servers) == Success(Environments[env].servers)
    ensures ParseServers(server, Environments[env].servers) == Success([server])
  {
    SplitWhole("all", ',');
    assert server in Beta.servers || server in Prod.servers;
    assert ',' !in server;
    SplitWhole(server, ',');
  }

  /** A prod server named for beta is rejected with just that name. */
  lemma ProdServerRejectedOnBeta()
    ensures ParseServers("test151" + "," + "mw151", Beta.servers) == Failure(InvalidChoices({"mw151"}))
  {
    var requested := ["test151", "mw151"];
    SplitTwo("test151", "mw151");
    assert "all" !in requested;
    assert "mw151" in Names(requested) && "mw151" !in Names(Beta.servers);
    assert Names(requested) - Names(Beta.servers) == {"mw151"};
  }

  /** Two comma-free names joined by a comma split back into the two. */
  lemma SplitTwo(a: string, b: string)
    requires ',' !in a && ',' !in b
    ensures Split(a + "," + b, ',') == [a, b]
  {
    SplitAfter(a, ',', b);
    SplitWhole(b, ',');
  }
}
