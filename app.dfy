/** The App component's state and its handlers (App.tsx). The React state
    hooks become fields of one object; each handler becomes a method that
    updates them. A remote call is not executed: the handler returns the
    request it sends and takes the store's answer as an input. */
module AppComponent {
  import opened Types
  import opened Directory

  const ConfigErrorMessage: string := "La connexion à la base de données n'est pas configurée."
  const LoadErrorMessage: string := "Impossible de charger les groupes. Vérifiez votre connexion."

  /** The fixed shared secret of the admin gate. */
  const AdminPassword: string := "admin"

  /** The store's answer to the list query: an error, or the data, which may be null. */
  datatype FetchResponse = QueryError | QueryData(data: Option<seq<Row>>)

  /** A write request sent to the store's `groups` collection. */
  datatype Write =
    | UpdateRow(id: string, fields: GroupFields)
    | InsertRow(fields: GroupFields)
    | DeleteRow(id: string)
    | SetVerifiedRow(id: string, isVerified: bool)

  /** What a save sends: an update of the group being edited when there is
      one, otherwise an insert whose verification flag is always false. */
  function SaveWrite(editing: Option<Group>, fields: GroupFields): (w: Write)
    ensures w.UpdateRow? <==> editing.Some?
    ensures w.UpdateRow? ==> w.id == editing.value.id && w.fields == fields
    ensures w.InsertRow? ==> !w.fields.isVerified
    ensures w.InsertRow? ==> w.fields == fields.(isVerified := false)
  {
    match editing
    case Some(g) => UpdateRow(g.id, fields)
    case None => InsertRow(GroupFields(fields.name, fields.description, fields.link,
                                       fields.category, fields.membersCount, false))
  }

  /** The admin mode after a toggle: leaving is unconditional; entering
      needs the prompt to return exactly the password. */
  function NextAdminMode(isAdminMode: bool, password: Option<string>): (r: bool)
    ensures r <==> !isAdminMode && password == Some(AdminPassword)
  {
    if isAdminMode then false
    else match password
      case Some(p) => p == AdminPassword
      case None => false
  }

  /** Whether a toggle raises "incorrect password": only when entering and
      the prompt returned a non-empty string other than the password. */
  function WrongPasswordAlert(isAdminMode: bool, password: Option<string>): (r: bool)
    ensures r <==> !isAdminMode && password.Some? && password.value != "" && password.value != AdminPassword
    ensures r ==> !NextAdminMode(isAdminMode, password)
  {
    if isAdminMode then false
    else match password
      case Some(p) => p != AdminPassword && |p| > 0
      case None => false
  }

  class App {
    /** Whether the store client is configured (its two settings present). */
    const hasClient: bool

    var groups: seq<Group>
    var isLoading: bool
    var error: Option<string>
    var isModalOpen: bool
    var searchQuery: string
    var selectedCategory: CategoryFilter
    var isAdminMode: bool
    var editingGroup: Option<Group>

    /** The initial state of the hooks: an empty list, loading, no error,
        modal closed, empty search over 'All', admin mode off. */
    constructor (hasClient: bool)
      ensures this.hasClient == hasClient
      ensures groups == [] && isLoading && error == None
      ensures !isModalOpen && editingGroup == None
      ensures searchQuery == "" && selectedCategory == All && !isAdminMode
    {
      this.hasClient := hasClient;
      groups := [];
      isLoading := true;
      error := None;
      isModalOpen := false;
      searchQuery := "";
      selectedCategory := All;
      isAdminMode := false;
      editingGroup := None;
    }

    /** The displayed list: the view filter over the current state. */
    function FilteredGroups(): (r: seq<Group>)
      reads this
      ensures forall i :: 0 <= i < |r| ==> Matches(r[i], searchQuery, selectedCategory)
      ensures forall g :: g in r <==> g in groups && Matches(g, searchQuery, selectedCategory)
    {
      FilterGroupsMembers(groups, searchQuery, selectedCategory);
      FilterGroups(groups, searchQuery, selectedCategory)
    }

    /** The search input's change handler. */
    method SetSearchQuery(query: string)
      modifies this`searchQuery
      ensures searchQuery == query
    {
      searchQuery := query;
    }

    /** The category buttons' click handler. */
    method SelectCategory(selected: CategoryFilter)
      modifies this`selectedCategory
      ensures selectedCategory == selected
    {
      selectedCategory := selected;
    }

    /** `fetchGroups`: reload the list. Without a client it records the
        configuration error; on a query error it records the load error; on
        data it replaces the whole list with the mapped rows. It always ends
        with loading off, never touches the list on failure and never clears
        an earlier error. */
    method FetchGroups(response: FetchResponse)
      modifies this`isLoading, this`error, this`groups
      ensures !isLoading
      ensures !hasClient ==> error == Some(ConfigErrorMessage) && groups == old(groups)
      ensures hasClient && response.QueryError? ==> error == Some(LoadErrorMessage) && groups == old(groups)
      ensures hasClient && response.QueryData? ==> error == old(error)
      ensures hasClient && response.QueryData? && response.data.Some? ==> groups == MapRows(response.data.value)
      ensures hasClient && response == QueryData(None) ==> groups == old(groups)
      ensures old(error).Some? ==> error.Some?
    {
      isLoading := true;
      if !hasClient {
        error := Some(ConfigErrorMessage);
        isLoading := false;
        return;
      }
      match response {
        case QueryError =>
          error := Some(LoadErrorMessage);
        case QueryData(data) =>
          if data.Some? {
            groups := MapRows(data.value);
          }
      }
      isLoading := false;
    }

    /** `handleAddGroup`: save the form. Without a client nothing happens.
        Otherwise it sends an update of the edited group or an insert; on
        success the reload starts, the modal closes and the edited group is
        cleared; on failure an alert is raised and the form stays as it was. */
    method HandleAddGroup(fields: GroupFields, remoteOk: bool)
      returns (sent: Option<Write>, reload: bool, alerted: bool)
      modifies this`isModalOpen, this`editingGroup, this`isLoading
      ensures sent == if hasClient then Some(SaveWrite(old(editingGroup), fields)) else None
      ensures reload <==> hasClient && remoteOk
      ensures alerted <==> hasClient && !remoteOk
      ensures reload ==> isLoading && !isModalOpen && editingGroup == None
      ensures !reload ==> isLoading == old(isLoading) && isModalOpen == old(isModalOpen)
                          && editingGroup == old(editingGroup)
    {
      sent, reload, alerted := None, false, false;
      if !hasClient {
        return;
      }
      sent := Some(SaveWrite(editingGroup, fields));
      if remoteOk {
        // the synchronous start of the un-awaited fetchGroups()
        isLoading := true;
        reload := true;
        isModalOpen := false;
        editingGroup := None;
      } else {
        alerted := true;
      }
    }

    /** `handleDeleteGroup`: after the store deletes the row, drop every
        group with that id from the list; on failure alert and keep the list. */
    method HandleDeleteGroup(id: string, remoteOk: bool) returns (sent: Option<Write>, alerted: bool)
      modifies this`groups
      ensures sent == if hasClient then Some(DeleteRow(id)) else None
      ensures alerted <==> hasClient && !remoteOk
      ensures groups == if hasClient && remoteOk then RemoveById(old(groups), id) else old(groups)
    {
      sent, alerted := None, false;
      if !hasClient {
        return;
      }
      sent := Some(DeleteRow(id));
      if remoteOk {
        groups := RemoveById(groups, id);
      } else {
        alerted := true;
      }
    }

    /** `handleUpdateGroup` (the verify toggle): after the store updates the
        flag, put the updated group in place of every group with its id;
        on failure the list is kept and nothing is raised. */
    method HandleUpdateGroup(updated: Group, remoteOk: bool) returns (sent: Option<Write>)
      modifies this`groups
      ensures sent == if hasClient then Some(SetVerifiedRow(updated.id, updated.isVerified)) else None
      ensures groups == if hasClient && remoteOk then ReplaceById(old(groups), updated) else old(groups)
    {
      sent := None;
      if !hasClient {
        return;
      }
      sent := Some(SetVerifiedRow(updated.id, updated.isVerified));
      if remoteOk {
        groups := ReplaceById(groups, updated);
      }
    }

    /** `handleEditClick`: open the modal on the given group. */
    method HandleEditClick(group: Group)
      modifies this`editingGroup, this`isModalOpen
      ensures editingGroup == Some(group) && isModalOpen
    {
      editingGroup := Some(group);
      isModalOpen := true;
    }

    /** The "add" buttons: open the modal in creation mode. */
    method OpenAddModal()
      modifies this`editingGroup, this`isModalOpen
      ensures editingGroup == None && isModalOpen
    {
      editingGroup := None;
      isModalOpen := true;
    }

    /** The modal's close handler: close it and forget the edited group. */
    method CloseModal()
      modifies this`editingGroup, this`isModalOpen
      ensures editingGroup == None && !isModalOpen
    {
      isModalOpen := false;
      editingGroup := None;
    }

    /** `toggleAdmin`: leave admin mode without a prompt, or prompt and enter
        it on the right password. `password` is what the prompt returns
        (`None` when cancelled); it is read only when a prompt is shown. */
    method ToggleAdmin(password: Option<string>) returns (prompted: bool, alerted: bool)
      modifies this`isAdminMode
      ensures prompted <==> !old(isAdminMode)
      ensures isAdminMode == NextAdminMode(old(isAdminMode), password)
      ensures alerted == WrongPasswordAlert(old(isAdminMode), password)
    {
      prompted, alerted := false, false;
      if isAdminMode {
        isAdminMode := false;
      } else {
        prompted := true;
        if password == Some(AdminPassword) {
          isAdminMode := true;
        } else if password.Some? && password.value != "" {
          alerted := true;
        }
      }
    }

    /** The admin dashboard's close handler. */
    method CloseAdminDashboard()
      modifies this`isAdminMode
      ensures !isAdminMode
    {
      isAdminMode := false;
    }
  }
}
