/** The page state of the dashboard (src/App.jsx): ten independent `useState`
    slots, each written by its own handler. The derived views over this state
    live in module Pipeline. */
module App {
  import opened Wrappers
  import opened Entities
  import Pipeline
  import NetworkGraph

  /** The ten slots at one moment, so that a handler can say "this slot and no
      other" as one record update. */
  datatype Slots = Slots(
    data: Option<Dataset>,
    searchQuery: string,
    selectedWallet: Option<string>,
    selectedTransaction: Option<Transaction>,
    isLoading: bool,
    currentPage: string,
    alerts: seq<Alert>,
    showRiskAnalysis: bool,
    showFundTracing: bool,
    activeTab: string)

  class Dashboard {
    var data: Option<Dataset>
    var searchQuery: string
    var selectedWallet: Option<string>
    var selectedTransaction: Option<Transaction>
    var isLoading: bool
    var currentPage: string
    var alerts: seq<Alert>
    var showRiskAnalysis: bool
    var showFundTracing: bool
    var activeTab: string

    function State(): Slots
      reads this
    {
      Slots(data, searchQuery, selectedWallet, selectedTransaction, isLoading,
        currentPage, alerts, showRiskAnalysis, showFundTracing, activeTab)
    }

    /** The initial values of the ten `useState` calls. */
    constructor()
      ensures State() == Slots(None, "", None, None, false, "home", [], false, false, "overview")
    {
      data := None;
      searchQuery := "";
      selectedWallet := None;
      selectedTransaction := None;
      isLoading := false;
      currentPage := "home";
      alerts := [];
      showRiskAnalysis := false;
      showFundTracing := false;
      activeTab := "overview";
    }

    /** The search box: `setSearchQuery(e.target.value)`. */
    method SetSearchQuery(query: string)
      modifies this
      ensures State() == old(State()).(searchQuery := query)
    {
      searchQuery := query;
    }

    /** `setSelectedWallet`: the graph's node click passes an id, the Reset button
        passes `null`. */
    method SelectWallet(wallet: Option<string>)
      modifies this
      ensures State() == old(State()).(selectedWallet := wallet)
    {
      selectedWallet := wallet;
    }

    /** The Reset button: `setSelectedWallet(null)`. Afterwards the detail list is
        the whole search result. */
    method ResetSelection()
      modifies this
      ensures State() == old(State()).(selectedWallet := None)
      ensures Pipeline.WalletFilter(Pipeline.FilteredTransactions(data, searchQuery), selectedWallet)
        == Pipeline.FilteredTransactions(data, searchQuery)
    {
      selectedWallet := None;
    }

    /** `setSelectedTransaction`, as `onSelectTransaction`. */
    method SelectTransaction(tx: Option<Transaction>)
      modifies this
      ensures State() == old(State()).(selectedTransaction := tx)
    {
      selectedTransaction := tx;
    }

    /** The close button of the detail modal: `setSelectedTransaction(null)`. */
    method CloseDetail()
      modifies this
      ensures State() == old(State()).(selectedTransaction := None)
    {
      selectedTransaction := None;
    }

    /** A node click in the graph selects that node's wallet. */
    method ClickNode(node: Node)
      modifies this
      ensures State() == old(State()).(selectedWallet := Some(node.id))
    {
      SelectWallet(NetworkGraph.NodeClickSelection(node));
    }

    /** A link click in the graph hands `link.transaction.transaction`, which is
        undefined, to `setSelectedTransaction`: it closes any open detail
        instead of opening the link's transaction. */
    method ClickLink(link: Link)
      modifies this
      ensures State() == old(State()).(selectedTransaction := None)
    {
      SelectTransaction(NetworkGraph.LinkClickSelection(link));
    }

    /** `handleAlertAction(action, alertId)`: only `'dismiss'` acts, and it removes
        exactly the alerts with that id from the page's list. */
    method HandleAlertAction(action: string, alertId: string)
      modifies this
      ensures action == "dismiss" ==> State() == old(State()).(alerts := RemoveAlert(old(alerts), alertId))
      ensures action != "dismiss" ==> State() == old(State())
    {
      if action == "dismiss" {
        alerts := RemoveAlert(alerts, alertId);
      }
    }

    /** `handleNavigate(page)`. Entering the dashboard from another page starts a
        load (the effect keyed on `currentPage`); setting the page it is already
        on triggers no effect. */
    method Navigate(page: string)
      modifies this
      ensures page != old(currentPage) && page == "dashboard" ==>
        State() == old(State()).(currentPage := page, isLoading := true)
      ensures !(page != old(currentPage) && page == "dashboard") ==>
        State() == old(State()).(currentPage := page)
    {
      if page != currentPage && page == "dashboard" {
        isLoading := true;
      }
      currentPage := page;
    }

    /** The body of the load timer: store the generated data, replace the alert
        list when the service answered with a list (`fetched`), keep it
        otherwise, and end the loading state. */
    method FinishLoad(dataset: Dataset, fetched: Option<seq<Alert>>)
      modifies this
      ensures State() == old(State()).(
        data := Some(dataset),
        alerts := if fetched.Some? then fetched.value else old(alerts),
        isLoading := false)
    {
      data := Some(dataset);
      if fetched.Some? {
        alerts := fetched.value;
      }
      isLoading := false;
    }

    /** The Overview and Metrics tabs. */
    method SetActiveTab(tab: string)
      modifies this
      ensures State() == old(State()).(activeTab := tab)
    {
      activeTab := tab;
    }

    /** The Riesgo button and the risk panel's close. */
    method SetRiskAnalysisOpen(open: bool)
      modifies this
      ensures State() == old(State()).(showRiskAnalysis := open)
    {
      showRiskAnalysis := open;
    }

    /** The Fondos button and the tracing panel's close. */
    method SetFundTracingOpen(open: bool)
      modifies this
      ensures State() == old(State()).(showFundTracing := open)
    {
      showFundTracing := open;
    }

    /** The headline numbers the page shows right now. */
    function Stats(): Pipeline.Stats
      reads this
    {
      Pipeline.ComputeStats(data, searchQuery)
    }

    /** The detail list (wallet filter over the search result). */
    function DetailTransactions(): seq<Transaction>
      reads this
    {
      Pipeline.WalletFilter(Pipeline.FilteredTransactions(data, searchQuery), selectedWallet)
    }
  }

  /** The headline numbers depend on the data and the search query only:
      selecting a wallet or a transaction never changes them. */
  lemma StatsIgnoreSelection(s: Slots, wallet: Option<string>, tx: Option<Transaction>)
    ensures var t := s.(selectedWallet := wallet, selectedTransaction := tx);
      Pipeline.ComputeStats(t.data, t.searchQuery) == Pipeline.ComputeStats(s.data, s.searchQuery)
      && Pipeline.FilteredTransactions(t.data, t.searchQuery) == Pipeline.FilteredTransactions(s.data, s.searchQuery)
  {
  }
}
