/** Deferred deletion of URL data sources (web/webui/url_data_manager_ios.cc), one call at a time.
    UrlDataInterleaving has the steps of several threads. */
module UrlDataManager {
  import opened Wrappers

  type Source = nat

  class URLDataManager {
    /** The list of sources to delete; None is the null pointer it starts as. */
    var dataSources: Option<seq<Source>>
    /** Destructor calls so far, in order. */
    var deleted: seq<Source>
    /** DeleteDataSources tasks posted to the UI thread so far. */
    var posted: nat

    function Pending(): seq<Source>
      reads this
    {
      if dataSources.None? then [] else dataSources.value
    }

    constructor ()
      ensures Pending() == [] && deleted == [] && posted == 0
    {
      dataSources, deleted, posted := None, [], 0;
    }

    /** Called when the last reference to `source` goes. */
    method DeleteDataSource(source: Source, onUiThread: bool)
      modifies this
      ensures onUiThread ==> deleted == old(deleted) + [source] && Pending() == old(Pending()) && posted == old(posted)
      ensures !onUiThread ==> deleted == old(deleted) && Pending() == old(Pending()) + [source]
      ensures !onUiThread ==> posted == old(posted) + if old(Pending()) == [] then 1 else 0
    {
      if onUiThread {
        deleted := deleted + [source];
        return;
      }
      var scheduleDelete := false;
      if dataSources.None? {
        dataSources := Some([]);
      }
      scheduleDelete := dataSources.value == [];
      dataSources := Some(dataSources.value + [source]);
      if scheduleDelete {
        posted := posted + 1;
      }
    }

    method DeleteDataSources()
      modifies this
      ensures deleted == old(deleted) + old(Pending()) && Pending() == [] && posted == old(posted)
    {
      var sources: seq<Source> := [];
      if dataSources.None? {
        return;
      }
      sources, dataSources := dataSources.value, Some(sources);
      for i := 0 to |sources|
        invariant deleted == old(deleted) + sources[..i]
        invariant Pending() == [] && posted == old(posted)
      {
        deleted := deleted + [sources[i]];
      }
      assert sources == sources[..|sources|];
    }

    method IsScheduledForDeletion(source: Source) returns (scheduled: bool)
      ensures scheduled <==> source in Pending()
    {
      if dataSources.None? {
        return false;
      }
      scheduled := source in dataSources.value;
    }
  }
}
