/** Channel.Interface.Securable: two flags the connection manager sets. */
module Securable {
  import opened Values

  class SecurableInterface {
    /** Whether the interface has been registered on the channel's bus object. */
    var registered: bool
    var encrypted: bool
    var verified: bool

    /** Both flags start false. */
    constructor ()
      ensures !registered && !encrypted && !verified
    {
      registered := false;
      encrypted := false;
      verified := false;
    }

    /** The interface has no immutable properties. */
    function ImmutableProperties(): VariantMap
    {
      map[]
    }

    method SetEncrypted(value: bool)
      modifies this
      ensures encrypted == value
      ensures verified == old(verified) && registered == old(registered)
    {
      encrypted := value;
    }

    method SetVerified(value: bool)
      modifies this
      ensures verified == value
      ensures encrypted == old(encrypted) && registered == old(registered)
    {
      verified := value;
    }
  }
}
