/**
 * The user table of the backend (`UserModel` rows behind `UserRepository`):
 * rows in insertion order with their generated ids, the two derived finders
 * and `save`.
 */
module UserRepository {
  import opened Wrappers

  /** A row; every column may be null. */
  datatype UserModel = UserModel(
    id: Option<nat>,
    provider: Option<string>,
    providerId: Option<string>,
    email: Option<string>,
    name: Option<string>,
    avatarUrl: Option<string>,
    password: Option<string>)

  /** `new UserModel()`. */
  function NewUser(): (u: UserModel)
    ensures u.id == None
    ensures u.provider == u.providerId == u.email == u.name == u.avatarUrl == u.password == None
  {
    UserModel(None, None, None, None, None, None, None)
  }

  /** The index of the first row that satisfies `p`. */
  function FirstIndex(rows: seq<UserModel>, p: UserModel -> bool): (r: Option<nat>)
    ensures r.Some? ==> r.value < |rows| && p(rows[r.value])
    ensures r.Some? ==> forall j :: 0 <= j < r.value ==> !p(rows[j])
    ensures r.None? ==> forall j :: 0 <= j < |rows| ==> !p(rows[j])
    decreases |rows|
  {
    if rows == [] then None
    else if p(rows[0]) then Some(0)
    else match FirstIndex(rows[1..], p) {
      case None => None
      case Some(k) => Some(k + 1)
    }
  }

  function HasEmail(email: string): UserModel -> bool {
    (u: UserModel) => u.email == Some(email)
  }

  function HasProviderKey(provider: Option<string>, providerId: Option<string>): UserModel -> bool {
    (u: UserModel) => u.provider == provider && u.providerId == providerId
  }

  /**
   * The outcome of a single-result finder (`Optional<UserModel>`): no row,
   * the one matching row (by position), or the exception Spring Data raises
   * when more than one row matches.
   */
  datatype Lookup = NoMatch | Match(index: nat) | SeveralMatches

  /** A single-result query over the rows that satisfy `p`. */
  function FindUnique(rows: seq<UserModel>, p: UserModel -> bool): (r: Lookup)
    ensures r.NoMatch? <==> forall j :: 0 <= j < |rows| ==> !p(rows[j])
    ensures r.Match? ==>
      r.index < |rows| && p(rows[r.index]) && forall j :: 0 <= j < |rows| && j != r.index ==> !p(rows[j])
    ensures r.SeveralMatches? <==> exists i, j :: 0 <= i < j < |rows| && p(rows[i]) && p(rows[j])
  {
    match FirstIndex(rows, p)
    case None => NoMatch
    case Some(i) =>
      var rest := rows[i + 1..];
      assert forall j :: i < j < |rows| ==> rows[j] == rest[j - i - 1];
      match FirstIndex(rest, p)
      case None => Match(i)
      case Some(k) =>
        assert rows[i + 1 + k] == rest[k];
        SeveralMatches
  }

  /** No two rows share an email. */
  ghost predicate UniqueEmails(rows: seq<UserModel>) {
    forall i, j :: 0 <= i < j < |rows| && rows[i].email.Some? ==> rows[i].email != rows[j].email
  }

  /** No two rows share a (provider, providerId) key. */
  ghost predicate UniqueProviderKeys(rows: seq<UserModel>) {
    forall i, j :: 0 <= i < j < |rows| ==>
      rows[i].provider != rows[j].provider || rows[i].providerId != rows[j].providerId
  }

  class UserRepository {
    var rows: seq<UserModel>

    /** Ids are generated in insertion order: the row at position `i` has id `i`. */
    ghost predicate Valid()
      reads this
    {
      forall i :: 0 <= i < |rows| ==> rows[i].id == Some(i)
    }

    constructor ()
      ensures Valid() && rows == []
    {
      rows := [];
    }

    /** `findByEmail`. */
    function FindByEmail(email: string): (r: Lookup)
      reads this
      ensures r.NoMatch? <==> forall j :: 0 <= j < |rows| ==> rows[j].email != Some(email)
      ensures r.Match? ==> r.index < |rows| && rows[r.index].email == Some(email)
      ensures r.Match? ==> forall j :: 0 <= j < |rows| && j != r.index ==> rows[j].email != Some(email)
      ensures r.SeveralMatches? <==>
        exists i, j :: 0 <= i < j < |rows| && rows[i].email == Some(email) && rows[j].email == Some(email)
    {
      FindUnique(rows, HasEmail(email))
    }

    /** `findByProviderAndProviderId`. */
    function FindByProviderAndProviderId(provider: Option<string>, providerId: Option<string>): (r: Lookup)
      reads this
      ensures r.NoMatch? <==>
        forall j :: 0 <= j < |rows| ==> rows[j].provider != provider || rows[j].providerId != providerId
      ensures r.Match? ==>
        r.index < |rows| && rows[r.index].provider == provider && rows[r.index].providerId == providerId
      ensures r.Match? ==> forall j :: 0 <= j < |rows| && j != r.index ==>
        rows[j].provider != provider || rows[j].providerId != providerId
      ensures r.SeveralMatches? <==>
        exists i, j :: 0 <= i < j < |rows|
          && rows[i].provider == provider && rows[i].providerId == providerId
          && rows[j].provider == provider && rows[j].providerId == providerId
    {
      FindUnique(rows, HasProviderKey(provider, providerId))
    }

    /** While emails are unique, `findByEmail` never raises. */
    lemma UniqueEmailsFindAtMostOne(email: string)
      requires UniqueEmails(rows)
      ensures !FindByEmail(email).SeveralMatches?
    {
    }

    /** While provider keys are unique, `findByProviderAndProviderId` never raises. */
    lemma UniqueKeysFindAtMostOne(provider: Option<string>, providerId: Option<string>)
      requires UniqueProviderKeys(rows)
      ensures !FindByProviderAndProviderId(provider, providerId).SeveralMatches?
    {
    }

    /** `save`: a row with a known id is updated in place, any other is inserted with the next id. */
    method Save(user: UserModel) returns (saved: UserModel)
      requires Valid()
      modifies this
      ensures Valid()
      ensures user.id.Some? && user.id.value < |old(rows)| ==>
        saved == user && rows == old(rows)[user.id.value := user]
      ensures !(user.id.Some? && user.id.value < |old(rows)|) ==>
        saved == user.(id := Some(|old(rows)|)) && rows == old(rows) + [saved]
    {
      if user.id.Some? && user.id.value < |rows| {
        rows := rows[user.id.value := user];
        saved := user;
      } else {
        saved := user.(id := Some(|rows|));
        rows := rows + [saved];
      }
    }
  }
}
