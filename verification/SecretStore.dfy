/** Apps kept as secrets: scalar fields as they are, lists joined by commas. */
module SecretStore {
  import opened Strings

  const DELIMITER: char := ','

  datatype App = App(
    name: string,
    status: string,
    releaseId: string,
    endpoint: string,
    buildId: string,
    domains: seq<string>,
    resources: seq<string>,
    repoUrl: string)

  type SecretValues = map<string, string>

  function Text(sv: SecretValues, key: string): string {
    if key in sv then sv[key] else ""
  }

  function Array(sv: SecretValues, key: string): seq<string> {
    Split(Text(sv, key), DELIMITER)
  }

  function AppToSecret(app: App): SecretValues {
    map["name" := app.name, "status" := app.status, "release_id" := app.releaseId, "build_id" := app.buildId,
        "repo_url" := app.repoUrl, "domains" := Join(app.domains, DELIMITER),
        "resources" := Join(app.resources, DELIMITER)]
  }

  function NewAppFromSecret(sv: SecretValues): App {
    App(Text(sv, "name"), Text(sv, "status"), Text(sv, "release_id"), "", Text(sv, "build_id"),
        Array(sv, "domains"), Array(sv, "resources"), Text(sv, "repo_url"))
  }

  /** Lists come back when they have an element and no element has a comma. */
  predicate Storable(list: seq<string>) {
    list != [] && forall x :: x in list ==> DELIMITER !in x
  }

  /** An app comes back from its secret exactly when it has no endpoint and its lists are storable. */
  lemma SecretRoundTripIff(app: App)
    ensures NewAppFromSecret(AppToSecret(app)) == app
       <==> app.endpoint == "" && Storable(app.domains) && Storable(app.resources)
  {
    SplitOfJoin(app.domains, DELIMITER);
    SplitOfJoin(app.resources, DELIMITER);
  }

  /** An empty list comes back as a list of one empty text, so that an app without domains seems to have one. */
  lemma EmptyListComesBack(app: App)
    ensures app.domains == [] ==> NewAppFromSecret(AppToSecret(app)).domains == [""]
    ensures app.resources == [] ==> NewAppFromSecret(AppToSecret(app)).resources == [""]
  {
    hide Split, Join;
    JoinNothing();
  }

  lemma JoinNothing()
    ensures Split(Join([], DELIMITER), DELIMITER) == [""]
  {
  }

  /** Reading and writing again changes nothing any more, whatever was stored. */
  lemma StoredIsStable(sv: SecretValues)
    ensures NewAppFromSecret(AppToSecret(NewAppFromSecret(sv))) == NewAppFromSecret(sv)
  {
    PiecesLackSeparator(Text(sv, "domains"), DELIMITER);
    PiecesLackSeparator(Text(sv, "resources"), DELIMITER);
    SecretRoundTripIff(NewAppFromSecret(sv));
  }

  /** Each field is kept under its own name, and the lists are joined by commas. */
  lemma SecretMeaning(app: App, d: string, rest: seq<string>)
    ensures var sv := AppToSecret(app);
            && "name" in sv && sv["name"] == app.name && "status" in sv && sv["status"] == app.status
            && "release_id" in sv && sv["release_id"] == app.releaseId
            && "build_id" in sv && sv["build_id"] == app.buildId && "repo_url" in sv && sv["repo_url"] == app.repoUrl
            && "domains" in sv && "resources" in sv
    ensures app.domains == [d] ==> AppToSecret(app)["domains"] == d
    ensures app.domains == [d] + rest && rest != [] ==>
              AppToSecret(app)["domains"] == d + "," + AppToSecret(app.(domains := rest))["domains"]
    ensures AppToSecret(app)["resources"] == AppToSecret(app.(domains := app.resources))["domains"]
  {
    assert app.domains == [d] + rest ==> app.domains[1..] == rest;
  }
}
