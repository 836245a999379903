/** The in-memory credential store (data/CredentialStore.kt, `InMemoryCredentialStore`): two
    independent slots, one for the credentials and one for the last address that worked. */
module CredentialStore {
  import opened Prelude
  import opened Models

  class InMemoryCredentialStore {
    var credentials: Option<Credentials>
    var lastUrl: Option<string>

    /** A fresh store holds nothing in either slot. */
    constructor()
      ensures credentials == None && lastUrl == None
    {
      credentials := None;
      lastUrl := None;
    }

    /** `load`: what was last saved, or nothing. */
    method Load() returns (r: Option<Credentials>)
      ensures r == credentials
    {
      r := credentials;
    }

    /** `save`: overwrites the credentials slot; the address slot is untouched. */
    method Save(c: Credentials)
      modifies this
      ensures credentials == Some(c) && lastUrl == old(lastUrl)
    {
      credentials := Some(c);
    }

    /** `saveLastSuccessfulUrl`: overwrites the address slot; the credentials are untouched. */
    method SaveLastSuccessfulUrl(url: string)
      modifies this
      ensures lastUrl == Some(url) && credentials == old(credentials)
    {
      lastUrl := Some(url);
    }

    /** `loadLastSuccessfulUrl`: the address last saved, or nothing. */
    method LoadLastSuccessfulUrl() returns (r: Option<string>)
      ensures r == lastUrl
    {
      r := lastUrl;
    }
  }
}
