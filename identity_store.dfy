/**
 * The identity and session store the fetch job reconciles against
 * (`OWSIdentityManager` for identity keys, `TSStorageManager` for sessions).
 * Only the three calls the job makes are modelled, with the contract the job
 * relies on.
 */
module IdentityStore {
  import opened Basics

  /** Observable state of the store: trusted keys, and a log of every save and archive call. */
  datatype StoreState = StoreState(
    identityKeys: map<string, seq<byte>>,
    saves: seq<(string, seq<byte>)>,
    archived: seq<string>)

  /** Whether saving `key` for the recipient replaces a different trusted key. */
  predicate SaveReportsChange(s: StoreState, key: seq<byte>, recipientId: string) {
    recipientId in s.identityKeys && s.identityKeys[recipientId] != key
  }

  /** The store after `saveRemoteIdentity`: the key is trusted and the call is logged. */
  function AfterSave(s: StoreState, key: seq<byte>, recipientId: string): StoreState {
    s.(identityKeys := s.identityKeys[recipientId := key], saves := s.saves + [(recipientId, key)])
  }

  /** The store after `archiveAllSessions(forContact:)`: the call is logged. */
  function AfterArchive(s: StoreState, recipientId: string): StoreState {
    s.(archived := s.archived + [recipientId])
  }

  class Store {
    var identityKeys: map<string, seq<byte>>
    var saves: seq<(string, seq<byte>)>
    var archived: seq<string>

    function State(): StoreState
      reads this
    {
      StoreState(identityKeys, saves, archived)
    }

    constructor (trusted: map<string, seq<byte>>)
      ensures State() == StoreState(trusted, [], [])
    {
      identityKeys, saves, archived := trusted, [], [];
    }

    /** `identityKey(forRecipientId:)`: the trusted key, or None on first use. */
    function IdentityKey(recipientId: string): (k: Option<seq<byte>>)
      reads this
      ensures k.Some? <==> recipientId in identityKeys
      ensures k.Some? ==> k.value == identityKeys[recipientId]
    {
      if recipientId in identityKeys then Some(identityKeys[recipientId]) else None
    }

    /** `saveRemoteIdentity(_:recipientId:)`: trusts the key, and reports whether it replaced a different one. */
    method SaveRemoteIdentity(key: seq<byte>, recipientId: string) returns (changed: bool)
      modifies this
      ensures State() == AfterSave(old(State()), key, recipientId)
      ensures changed == SaveReportsChange(old(State()), key, recipientId)
    {
      changed := recipientId in identityKeys && identityKeys[recipientId] != key;
      identityKeys := identityKeys[recipientId := key];
      saves := saves + [(recipientId, key)];
    }

    /** `archiveAllSessions(forContact:)`: invalidates the recipient's sessions. */
    method ArchiveAllSessions(recipientId: string)
      modifies this
      ensures State() == AfterArchive(old(State()), recipientId)
    {
      archived := archived + [recipientId];
    }
  }
}
