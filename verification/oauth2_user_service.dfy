/**
 * `CustomOAuth2UserService.loadUser`: after the provider has authenticated
 * the user, upsert the matching row by (registration id, `sub`) and hand the
 * provider's attributes back with `sub` as the name attribute.
 */
module OAuth2UserService {
  import opened Wrappers
  import opened UserRepository
  import AuthController

  /** The principal `loadUser` returns: the provider's attributes, named by one of them. */
  datatype OAuth2User = OAuth2User(attributes: map<string, string>, nameAttributeKey: string)

  const NameAttributeKey: string := "sub"

  /**
   * Why `loadUser` throws: the finder matched several rows, or the principal
   * cannot be built because the attributes lack the name attribute. Either
   * way the transaction rolls back, so the table is left as it was.
   */
  datatype LoadError = NonUniqueResult | MissingNameAttribute

  /** A row holds the key (provider, providerId). */
  predicate HasKey(rows: seq<UserModel>, provider: Option<string>, providerId: Option<string>) {
    exists i :: 0 <= i < |rows| && rows[i].provider == provider && rows[i].providerId == providerId
  }

  /** The row the upsert writes when nothing holds the key yet, before its id is generated. */
  function NewProviderUser(registrationId: string, attributes: map<string, string>): (u: UserModel)
    ensures u.id == None && u.password == None && u.provider == Some(registrationId)
    ensures u.providerId == AuthController.Attribute(attributes, "sub")
    ensures u.email == AuthController.Attribute(attributes, "email")
    ensures u.name == AuthController.Attribute(attributes, "name")
    ensures u.avatarUrl == AuthController.Attribute(attributes, "picture")
  {
    NewUser().(provider := Some(registrationId), providerId := AuthController.Attribute(attributes, "sub"),
               email := AuthController.Attribute(attributes, "email"),
               name := AuthController.Attribute(attributes, "name"),
               avatarUrl := AuthController.Attribute(attributes, "picture"))
  }

  /** The existing row after the upsert: only its name and avatar follow the provider. */
  function Refreshed(existing: UserModel, attributes: map<string, string>): (u: UserModel)
    ensures u.id == existing.id && u.provider == existing.provider && u.providerId == existing.providerId
    ensures u.email == existing.email && u.password == existing.password
    ensures u.name == AuthController.Attribute(attributes, "name")
    ensures u.avatarUrl == AuthController.Attribute(attributes, "picture")
  {
    existing.(name := AuthController.Attribute(attributes, "name"),
              avatarUrl := AuthController.Attribute(attributes, "picture"))
  }

  class CustomOAuth2UserService {
    const userRepository: UserRepository

    constructor (userRepository: UserRepository)
      ensures this.userRepository == userRepository
    {
      this.userRepository := userRepository;
    }

    /** `loadUser`, from the registration id and the attributes the provider returned. */
    method LoadUser(registrationId: string, attributes: map<string, string>)
      returns (result: Result<OAuth2User, LoadError>)
      requires userRepository.Valid()
      modifies userRepository
      ensures userRepository.Valid()
      ensures
        var providerId := AuthController.Attribute(attributes, "sub");
        var lookup := old(userRepository.FindByProviderAndProviderId(Some(registrationId), providerId));
        if lookup.SeveralMatches? then
          result == Failure(NonUniqueResult) && userRepository.rows == old(userRepository.rows)
        else if NameAttributeKey !in attributes then
          result == Failure(MissingNameAttribute) && userRepository.rows == old(userRepository.rows)
        else
          result == Success(OAuth2User(attributes, NameAttributeKey))
          && if lookup.Match? then
               userRepository.rows
                 == old(userRepository.rows)[lookup.index := Refreshed(old(userRepository.rows)[lookup.index], attributes)]
             else
               userRepository.rows
                 == old(userRepository.rows) + [NewProviderUser(registrationId, attributes).(id := Some(|old(userRepository.rows)|))]
      ensures result.Success? ==> HasKey(userRepository.rows, Some(registrationId), Some(attributes[NameAttributeKey]))
      ensures UniqueProviderKeys(old(userRepository.rows)) ==> UniqueProviderKeys(userRepository.rows)
      // an upsert: afterwards the finder returns exactly one row for the key
      ensures result.Success? && UniqueProviderKeys(old(userRepository.rows)) ==>
        userRepository.FindByProviderAndProviderId(Some(registrationId), Some(attributes[NameAttributeKey])).Match?
    {
      var provider := Some(registrationId);
      var providerId := AuthController.Attribute(attributes, "sub");
      var before := userRepository.rows;
      var user: UserModel;
      match userRepository.FindByProviderAndProviderId(provider, providerId) {
        case SeveralMatches =>
          return Failure(NonUniqueResult);
        case Match(k) =>
          user := userRepository.rows[k];
        case NoMatch =>
          user := NewUser().(provider := provider, providerId := providerId,
                             email := AuthController.Attribute(attributes, "email"));
      }
      user := user.(name := AuthController.Attribute(attributes, "name"),
                    avatarUrl := AuthController.Attribute(attributes, "picture"));
      var saved := userRepository.Save(user);
      if NameAttributeKey !in attributes {
        // `new DefaultOAuth2User(...)` throws, and the transaction undoes the save
        userRepository.rows := before;
        return Failure(MissingNameAttribute);
      }
      result := Success(OAuth2User(attributes, NameAttributeKey));
    }
  }
}
