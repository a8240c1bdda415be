/** DefaultUserService: the anonymous per-install user. The id is read from (or
    written to) the roaming settings store under a fixed key and the user object is
    cached for the rest of the process. The settings store is a map; a fresh GUID
    and the store's failures are inputs. */
module DefaultUsers {
  import opened Common
  import opened Users

  const DefaultUserIdKey := "Raygun4UWPDefaultUserId"

  /** A value held by the settings store: a string, or a value of some other type. */
  datatype SettingValue = Text(text: string) | OtherValue

  /** Where the settings store raises, if it does: reading it (the store itself is
      unavailable) or writing the new id into it. */
  datatype StorageFault = NoFault | ReadFault | WriteFault

  /** True when the store holds a string under the key. */
  predicate HasStoredId(settings: map<string, SettingValue>) {
    DefaultUserIdKey in settings && settings[DefaultUserIdKey].Text?
  }

  class DefaultUserService {
    /** The static `_defaultUser` cache. */
    var cache: RaygunUserInfo?
    /** ApplicationData.Current.RoamingSettings.Values */
    var settings: map<string, SettingValue>

    constructor (settings: map<string, SettingValue>)
      ensures cache == null && this.settings == settings
    {
      cache := null;
      this.settings := settings;
    }

    /** The DefaultUser getter. `newGuid` is Guid.NewGuid().ToString(). */
    method DefaultUser(newGuid: string, fault: StorageFault) returns (u: RaygunUserInfo?)
      modifies this
      ensures u == cache
      // once cached, the same user is returned and the store is not touched
      ensures old(cache) != null ==> cache == old(cache) && settings == old(settings)
      // an unreadable store is swallowed: the previous (null) cache is returned
      ensures old(cache) == null && fault == ReadFault ==> u == null && settings == old(settings)
      // a stored string is the identifier
      ensures old(cache) == null && fault != ReadFault && HasStoredId(old(settings)) ==>
        u != null && fresh(u) && u.isAnonymous &&
        u.identifier == Some(old(settings)[DefaultUserIdKey].text) && settings == old(settings)
      // otherwise a new id without dashes is stored and used
      ensures old(cache) == null && fault == NoFault && !HasStoredId(old(settings)) ==>
        u != null && fresh(u) && u.isAnonymous &&
        u.identifier == Some(RemoveAll(newGuid, '-')) &&
        settings == old(settings)[DefaultUserIdKey := Text(RemoveAll(newGuid, '-'))]
      // a failed write is swallowed: nothing is cached or stored
      ensures old(cache) == null && fault == WriteFault && !HasStoredId(old(settings)) ==>
        u == null && settings == old(settings)
    {
      if cache == null {
        if fault == ReadFault {
          return cache;
        }
        var id: string;
        if HasStoredId(settings) {
          id := settings[DefaultUserIdKey].text;
        } else {
          id := RemoveAll(newGuid, '-');
          if fault == WriteFault {
            return cache;
          }
          settings := settings[DefaultUserIdKey := Text(id)];
        }
        cache := new RaygunUserInfo.Anonymous(id);
      }
      u := cache;
    }
  }

  /** The id written by a first access contains no dash, so it reads back verbatim. */
  lemma GeneratedIdHasNoDash(newGuid: string)
    ensures forall k :: 0 <= k < |RemoveAll(newGuid, '-')| ==> RemoveAll(newGuid, '-')[k] != '-'
  {
  }
}
