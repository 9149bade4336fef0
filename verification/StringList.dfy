// The column type that stores a list of strings as one comma-joined string.
module StringList {
  import opened ActorRegistry
  import opened Text
  import opened Wrappers

  function BindParam(value: Option<seq<string>>): Option<string> {
    match value case Some(list) => Some(Join(list, ',')) case None => None
  }

  function ResultValue(column: Option<string>): Option<seq<string>> {
    match column case Some(s) => Some(Split(s, ',')) case None => None
  }

  // A list survives the column exactly if it is not empty and its parts hold no comma.
  lemma ListSurvivesExactly(list: seq<string>)
    ensures ResultValue(BindParam(Some(list))) == Some(list) <==> list != [] && AllFree(list, ',')
  {
    SplitOfJoin(list, ',');
  }

  // NULL stands for a missing list, and only for that.
  lemma NullSurvives(list: Option<seq<string>>)
    ensures BindParam(list) == None <==> list == None
    ensures ResultValue(None) == None
  {
  }

  // The empty list comes back as a list of one empty string.
  lemma EmptyListIsLost()
    ensures ResultValue(BindParam(Some([]))) == Some([""])
  {
  }

  function RoleName(r: Role): string {
    match r case Issuer => "issuer" case Verifier => "verifier"
  }

  function RoleNames(roles: seq<Role>): seq<string> {
    seq(|roles|, i requires 0 <= i < |roles| => RoleName(roles[i]))
  }

  // Every non-empty list of roles survives.
  lemma RolesSurvive(roles: seq<Role>)
    requires roles != []
    ensures ResultValue(BindParam(Some(RoleNames(roles)))) == Some(RoleNames(roles))
  {
    ListSurvivesExactly(RoleNames(roles));
  }
}
