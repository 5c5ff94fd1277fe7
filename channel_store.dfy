/** The web client's channel list and selected channel (frontend/src/store/channelStore.ts). */
module ChannelStore {
  import opened Common

  datatype ClientChannel = ClientChannel(id: string, name: string, description: Option<string>, isPrivate: bool,
                                         workspaceId: string)

  /** `useChannelStore`. */
  class ChannelState {
    var channels: seq<ClientChannel>
    var currentChannel: Option<ClientChannel>

    constructor ()
      ensures channels == [] && currentChannel == None
    {
      channels, currentChannel := [], None;
    }

    /** `setChannels`: replaces the list wholesale. */
    method SetChannels(cs: seq<ClientChannel>)
      modifies this
      ensures channels == cs && currentChannel == old(currentChannel)
    {
      channels := cs;
    }

    /** `setCurrentChannel`: changes only the selection. */
    method SetCurrentChannel(c: Option<ClientChannel>)
      modifies this
      ensures currentChannel == c && channels == old(channels)
    {
      currentChannel := c;
    }

    /** `addChannel`: appends at the end, without checking for an entry with the same id. */
    method AddChannel(c: ClientChannel)
      modifies this
      ensures channels == old(channels) + [c] && currentChannel == old(currentChannel)
    {
      channels := channels + [c];
    }
  }
}
