/** The in-memory store of loaded datasets, keyed by file name, with the name
    added last remembered as the most recent. Entries are weak references: a
    dataset may have been released while its entry remains. */
module DsCache {
  import opened Wrappers

  /** A loaded dataset, known only by identity. */
  datatype Dataset = Dataset(id: nat)

  class DatasetCache {
    var available: map<string, Dataset>
    var mostRecent: Option<string>

    /** A new cache: nothing stored and no most recent name. */
    constructor()
      ensures available == map[] && mostRecent == None
    {
      available := map[];
      mostRecent := None;
    }

    /** `add_ds`: stores `ds` under `name`, replacing any entry already there,
        and makes `name` the most recent. */
    method AddDs(ds: Dataset, name: string)
      modifies this
      ensures available == old(available)[name := ds]
      ensures mostRecent == Some(name)
      ensures Exists(name) && GetDs(name) == Some(ds) && MostRecent() == Ok(Some(ds))
    {
      available := available[name := ds];
      mostRecent := Some(name);
    }

    /** `most_recent`: None when no name was added since the last clearing;
        otherwise the entry of the most recent name, which raises KeyError
        when that entry was removed in the meantime. */
    function MostRecent(): (r: Result<Option<Dataset>>)
      reads this
      ensures mostRecent.None? ==> r == Ok(None)
      ensures mostRecent.Some? ==> (r.Ok? <==> mostRecent.value in available)
      ensures r.Err? ==> r.error == KeyError
      ensures r.Ok? && r.value.Some? ==> r.value == GetDs(mostRecent.value)
    {
      match mostRecent
      case None => Ok(None)
      case Some(name) => if name in available then Ok(Some(available[name])) else Err(KeyError)
    }

    /** `get_ds`: the entry stored under `name`, or None. */
    function GetDs(name: string): (r: Option<Dataset>)
      reads this
      ensures r.Some? <==> Exists(name)
      ensures r.Some? ==> name in available && available[name] == r.value
    {
      if Exists(name) then Some(available[name]) else None
    }

    /** `exists`: an entry is stored under `name`. */
    predicate Exists(name: string)
      reads this
    {
      name in available
    }

    /** `reference_exists`: an entry is stored under `name` and the dataset it
        refers to is still alive (`alive` stands for the weak references that
        have not been released). */
    predicate ReferenceExists(name: string, alive: set<Dataset>)
      reads this
    {
      Exists(name) && available[name] in alive
    }

    /** `rm_ds`: removes the entry under `name`, if any, and nothing else; the
        most recent name is left as it was. */
    method RmDs(name: string)
      modifies this
      ensures available == old(available) - {name}
      ensures mostRecent == old(mostRecent)
      ensures !Exists(name)
      ensures mostRecent == Some(name) ==> MostRecent() == Err(KeyError)
    {
      available := available - {name};
    }

    /** `rm_all`: empties the cache and forgets the most recent name. */
    method RmAll()
      modifies this
      ensures available == map[] && mostRecent == None
      ensures forall name :: !Exists(name)
      ensures MostRecent() == Ok(None)
    {
      available := map[];
      mostRecent := None;
    }

    /** `check_then_load`: the cached dataset when its reference is alive;
        otherwise `loaded` (what `yt.load(filename)` gives), which is cached
        only when the `in_memory_cache` setting is on. */
    method CheckThenLoad(filename: string, alive: set<Dataset>, loaded: Dataset, inMemoryCache: bool)
      returns (ds: Dataset)
      modifies this
      ensures old(ReferenceExists(filename, alive)) ==>
        ds == old(available)[filename] && available == old(available) && mostRecent == old(mostRecent)
      ensures !old(ReferenceExists(filename, alive)) && inMemoryCache ==>
        ds == loaded && available == old(available)[filename := loaded] && mostRecent == Some(filename)
      ensures !old(ReferenceExists(filename, alive)) && !inMemoryCache ==>
        ds == loaded && available == old(available) && mostRecent == old(mostRecent)
    {
      if ReferenceExists(filename, alive) {
        var cached := GetDs(filename);
        return cached.value;
      }
      ds := loaded;
      if inMemoryCache {
        AddDs(ds, filename);
      }
    }
  }
}
