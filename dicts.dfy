/**
 A Python `dict` from strings to record values, as a heap object: the
 plugin hands the same dictionary around (the first site record is also the
 performance data) and changes it in place.
 */
module Dicts {
  import opened Wrappers
  import opened Values

  class Dict {
    var entries: map<string, Value>

    constructor (m: map<string, Value>)
      ensures entries == m
    {
      entries := m;
    }

    /** `d.update({key: value})`: sets one key, adding it if absent. */
    method Update(key: string, value: Value)
      modifies this
      ensures entries == old(entries)[key := value]
    {
      entries := entries[key := value];
    }

    /** `d.pop(key, None)`: removes the key if present and returns its old value. */
    method Pop(key: string) returns (r: Option<Value>)
      modifies this
      ensures entries == old(entries) - {key}
      ensures r == if key in old(entries) then Some(old(entries)[key]) else None
    {
      r := if key in entries then Some(entries[key]) else None;
      entries := entries - {key};
    }
  }
}
