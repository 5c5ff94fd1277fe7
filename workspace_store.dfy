/** The web client's workspace list and selected workspace (frontend/src/store/workspaceStore.ts). */
module WorkspaceStore {
  import opened Common

  datatype ClientWorkspace = ClientWorkspace(id: string, name: string, slug: string, description: Option<string>,
                                             avatar: Option<string>)

  /** `useWorkspaceStore`. */
  class WorkspaceState {
    var workspaces: seq<ClientWorkspace>
    var currentWorkspace: Option<ClientWorkspace>

    constructor ()
      ensures workspaces == [] && currentWorkspace == None
    {
      workspaces, currentWorkspace := [], None;
    }

    /** `setWorkspaces`: replaces the list wholesale. */
    method SetWorkspaces(ws: seq<ClientWorkspace>)
      modifies this
      ensures workspaces == ws && currentWorkspace == old(currentWorkspace)
    {
      workspaces := ws;
    }

    /** `setCurrentWorkspace`: changes only the selection. */
    method SetCurrentWorkspace(w: Option<ClientWorkspace>)
      modifies this
      ensures currentWorkspace == w && workspaces == old(workspaces)
    {
      currentWorkspace := w;
    }

    /** `addWorkspace`: appends at the end, without checking for an entry with the same id. */
    method AddWorkspace(w: ClientWorkspace)
      modifies this
      ensures workspaces == old(workspaces) + [w] && currentWorkspace == old(currentWorkspace)
    {
      workspaces := workspaces + [w];
    }
  }
}
