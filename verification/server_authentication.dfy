/** Channel.Type.ServerAuthentication: a channel type carrying only its authentication method. */
module ServerAuthentication {
  import opened Values
  import opened Names
  import opened Properties

  class ServerAuthenticationType {
    var registered: bool
    /** The D-Bus interface name of the authentication method (SASL, captcha, ...). */
    const authenticationMethod: string

    constructor (authenticationMethod: string)
      ensures this.authenticationMethod == authenticationMethod && !registered
    {
      this.authenticationMethod := authenticationMethod;
      registered := false;
    }

    /** The one immutable property, AuthenticationMethod, qualified by the channel type's name. */
    function ImmutableProperties(): VariantMap
    {
      map[PropertyKey(ServerAuthenticationTypeName, "AuthenticationMethod") := Str(authenticationMethod)]
    }

    /** The only immutable property is AuthenticationMethod, and it holds the field's value. */
    lemma ImmutablePropertiesNamed()
      ensures AllQualifiedBy(ImmutableProperties(), ServerAuthenticationTypeName)
      ensures ImmutableProperties().Keys == {PropertyKey(ServerAuthenticationTypeName, "AuthenticationMethod")}
      ensures ImmutableProperties()[PropertyKey(ServerAuthenticationTypeName, "AuthenticationMethod")] == Str(authenticationMethod)
    {
      KeysQualified(ServerAuthenticationTypeName);
    }
  }
}
