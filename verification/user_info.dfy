/** RaygunUserInfo. It is a reference type in the client, and the RUM services
    compare users by reference, so it is modelled as a class. Identifier and
    IsAnonymous are settable properties; a null Identifier is `None`. */
module Users {
  import opened Common

  class RaygunUserInfo {
    var identifier: Option<string>
    var isAnonymous: bool

    /** new RaygunUserInfo(user): any string, null included, becomes the
        identifier. */
    constructor (user: Option<string>)
      ensures identifier == user && !isAnonymous
    {
      identifier := user;
      isAnonymous := false;
    }

    /** new RaygunUserInfo(id) { IsAnonymous = true } */
    constructor Anonymous(id: string)
      ensures identifier == Some(id) && isAnonymous
    {
      identifier := Some(id);
      isAnonymous := true;
    }

    /** The Identifier setter. */
    method SetIdentifier(value: Option<string>)
      modifies this
      ensures identifier == value && isAnonymous == old(isAnonymous)
    {
      identifier := value;
    }

    /** The IsAnonymous setter. */
    method SetIsAnonymous(value: bool)
      modifies this
      ensures isAnonymous == value && identifier == old(identifier)
    {
      isAnonymous := value;
    }
  }
}
