/**
HttpService as a class: the peer map, what POST and DELETE do to it, and the cleaner's erasing loop.
`held` are the peers some other shared_ptr keeps alive; the last pointer to a peer runs its destructor,
which is Terminate.
*/
module HttpServices {
  import opened Basics
  import opened PeerMachine
  import opened PeerSafety
  import opened PeerRestart
  import opened PeerRuns
  import opened RtcPeers
  import opened SdpText
  import ServiceMachine

  type PeerMap = map<string, RtcPeer>

  /** A shared_ptr is dropped: the last one runs the destructor. */
  method Drop(peer: RtcPeer, held: set<RtcPeer>)
    requires peer.Valid()
    modifies {peer} - held
    ensures peer.Valid() && (peer !in held ==> Quiet(peer.state) && peer.state == Terminated(old(peer.state)))
  {
    if peer !in held {
      var _ := peer.Terminate();
    }
  }

  /** What POST does with the peer it has made: register, then set the offer. */
  method Offer(peer: RtcPeer, session: SessionId, body: string, accepted: bool, described: bool)
    returns (ghost schedule: seq<PeerStep>)
    requires peer.Valid() && peer.state == Fresh(peer.id, peer.hasCandidatesInSdp) && peer.remoteSdp.None?
    modifies peer
    ensures peer.Valid() && Ran({}, Fresh(peer.id, peer.hasCandidatesInSdp), schedule, peer.state)
    ensures peer.state == Offered(peer.id, peer.hasCandidatesInSdp, session, accepted, described)
    ensures peer.responses == []
    ensures peer.remoteSdp == if accepted then Some(body) else None
  {
    schedule := peer.OnLocalSdp(session);
    ghost var rest := peer.SetRemoteSdp(body, accepted, described);
    RanJoins({}, old(peer.state), schedule, rest);
    schedule := schedule + rest;
  }

  /** A peer that POST has made. */
  function Offered(id: string, delayed: bool, session: SessionId, accepted: bool, described: bool): Peer {
    OfferSet(Fresh(id, delayed).(handler := Some(session), registered := Some(session)), accepted, described)
  }

  /** A connected peer ignores candidates. */
  function WithCandidates(p: Peer, candidates: seq<string>): Peer {
    if p.connected then p else p.(added := p.added + candidates)
  }

  /** No Terminate has begun; and if ICE is to be restarted, there is a description to rewrite. */
  ghost predicate Patchable(peer: RtcPeer, ifMatch: string, body: string)
    reads peer
  {
    && peer.Valid() && !Begun(peer.state)
    && (ifMatch == "*" ==> peer.remoteSdp.Some? && '$' !in Parsed(body).iceUfrag && '$' !in Parsed(body).icePwd)
  }

  /** What a map of peers stands for. */
  ghost function StatesOf(peerMap: PeerMap): map<string, Peer> reads peerMap.Values {
    map key | key in peerMap :: peerMap[key].state
  }

  /** The entry leads to a peer with that id. */
  ghost predicate Entry(key: string, peer: RtcPeer) reads peer { peer.Valid() && peer.id == key }

  class HttpService {
    /** Whether there is a V4L2Webrtc to make peers with. */
    const v4l2Webrtc: bool
    var peerMap: PeerMap

    ghost predicate Valid() reads this, peerMap.Values {
      forall key {:trigger Entry(key, peerMap[key])} :: key in peerMap ==> Entry(key, peerMap[key])
    }

    /** The peers' states by key. */
    ghost function View(): map<string, Peer> reads this, peerMap.Values { StatesOf(peerMap) }

    /** No two entries lead to the same peer. */
    lemma EntriesDiffer()
      requires Valid()
      ensures forall key, other :: key in peerMap && other in peerMap && key != other ==> peerMap[key] != peerMap[other]
    {
      forall key | key in peerMap ensures peerMap[key].id == key { assert Entry(key, peerMap[key]); }
    }

    constructor (v4l2Webrtc: bool)
      ensures Valid() && peerMap == map[] && this.v4l2Webrtc == v4l2Webrtc
    {
      this.v4l2Webrtc, peerMap := v4l2Webrtc, map[];
    }

    /** The peer of one entry is terminated, unless somebody holds it; the others stay as they are. */
    method DropEntry(id: string, held: set<RtcPeer>)
      requires Valid() && id in peerMap
      modifies {peerMap[id]} - held
      ensures Valid() && forall key :: key in peerMap && key != id ==> unchanged(peerMap[key])
      ensures peerMap[id] !in held ==>
                Quiet(peerMap[id].state) && peerMap[id].state == Terminated(old(peerMap[id].state))
    {
      assert Entry(id, peerMap[id]);
      Drop(peerMap[id], held);
      forall key | key in peerMap ensures Entry(key, peerMap[key]) {
        assert old(Entry(key, peerMap[key]));
      }
    }

    /** Null without a V4L2Webrtc. A peer already mapped to the id is dropped. */
    method CreatePeer(id: string, hasCandidatesInSdp: bool, held: set<RtcPeer>) returns (peer: RtcPeer?)
      requires Valid()
      modifies `peerMap, (if v4l2Webrtc && id in peerMap then {peerMap[id]} else {}) - held
      ensures peer == null <==> !v4l2Webrtc
      ensures peer == null ==> peerMap == old(peerMap)
      ensures peer != null ==>
                && Valid() && fresh(peer) && peer.Valid() && peer.remoteSdp.None? && peer.responses == []
                && peer.hasCandidatesInSdp == hasCandidatesInSdp
                && peer.state == Fresh(id, hasCandidatesInSdp) && peerMap == old(peerMap)[id := peer]
                && View() == old(View())[id := peer.state]
                && (id in old(peerMap) && old(peerMap)[id] !in held ==> Quiet(old(peerMap)[id].state))
    {
      if !v4l2Webrtc {
        return null;
      }
      var made := new RtcPeer(id, hasCandidatesInSdp);
      if id in peerMap {
        DropEntry(id, held);
      }
      peerMap := peerMap[id := made];
      peer := made;
    }

    method GetPeer(id: string) returns (peer: RtcPeer?)
      ensures if id in peerMap then peer == peerMap[id] else peer == null
    {
      peer := if id in peerMap then peerMap[id] else null;
    }

    method RemovePeerFromMap(id: string)
      requires Valid()
      modifies `peerMap
      ensures Valid() && peerMap == old(peerMap) - {id}
    {
      peerMap := peerMap - {id};
    }

    /** POST: a new peer under its id, which will answer this session and has been given the offer. */
    method HandlePost(session: SessionId, id: string, body: string, accepted: bool, described: bool, held: set<RtcPeer>)
      returns (peer: RtcPeer?, ghost schedule: seq<PeerStep>)
      requires Valid()
      modifies `peerMap, (if v4l2Webrtc && id in peerMap then {peerMap[id]} else {}) - held
      ensures peer == null <==> !v4l2Webrtc  // and the null pointer is used: the process is gone
      ensures peer == null ==> peerMap == old(peerMap)
      ensures peer != null ==>
                && Valid() && fresh(peer) && peerMap == old(peerMap)[id := peer] && peer.responses == []
                && peer.remoteSdp == (if accepted then Some(body) else None)
                && peer.state == Offered(id, true, session, accepted, described)
                && Ran({}, Fresh(id, true), schedule, peer.state)
                && View() == old(View())[id := peer.state]
    {
      schedule := [];
      peer := CreatePeer(id, true, held);
      if peer != null {
        schedule := Offer(peer, session, body, accepted, described);
      }
    }

    /** The peer is given the candidates, one after the other. */
    method GiveCandidates(peer: RtcPeer, candidates: seq<string>)
      requires peer.Valid() && !Begun(peer.state)
      modifies peer`state
      ensures peer.Valid() && peer.state == WithCandidates(old(peer.state), candidates)
    {
      ghost var start := peer.state;
      for i := 0 to |candidates|
        invariant peer.Valid() && !Begun(peer.state)
        invariant peer.state == WithCandidates(start, candidates[..i])
      {
        var _, _ := peer.SetRemoteIce(candidates[i]);
        assert candidates[..i + 1] == candidates[..i] + [candidates[i]];
      }
      assert candidates[..|candidates|] == candidates;
    }

    /**
    PATCH with an If-Match: the named peer is given every candidate of the body, and on `*` its remote
    description is set again with the credentials of the body; no other peer or entry changes.
    */
    method HandlePatch(id: string, ifMatch: string, body: string, accepted: bool, described: bool)
      returns (status: nat)
      requires Valid() && (id in peerMap ==> Patchable(peerMap[id], ifMatch, body))
      modifies if id in peerMap then {peerMap[id]} else {}
      ensures status == if id !in peerMap then 422 else if ifMatch == "*" then 200 else 204
      ensures forall key :: key in peerMap && key != id ==> unchanged(peerMap[key])
      ensures id in peerMap ==>
                var peer, given := peerMap[id], WithCandidates(old(peerMap[id].state), Parsed(body).candidates);
                && peer.Mirrors() && (ifMatch != "*" || peer.isConnected ==> Valid())
                && peer.state == (if ifMatch == "*" then OfferSet(given, accepted, described) else given)
                && peer.remoteSdp == if ifMatch == "*" && !peer.isConnected && accepted
                                     then Some(Restarted(old(peerMap[id].remoteSdp).value, Parsed(body).iceUfrag,
                                                         Parsed(body).icePwd))
                                     else old(peerMap[id].remoteSdp)
    {
      var peer := GetPeer(id);
      if peer == null {
        return ServiceMachine.UNPROCESSABLE_ENTITY;
      }
      EntriesDiffer();
      assert Entry(id, peerMap[id]);
      var iceGroup := ParseCandidates(body);
      GiveCandidates(peer, iceGroup.candidates);
      if ifMatch == "*" {
        var _ := peer.RestartIce(iceGroup.iceUfrag, iceGroup.icePwd, accepted, described);
        status := ServiceMachine.OK;
      } else {
        status := ServiceMachine.NO_CONTENT;
      }
      forall key | key in peerMap && key != id ensures Entry(key, peerMap[key]) {
        assert old(Entry(key, peerMap[key]));
      }
    }

    /** DELETE: the named peer is quiet afterwards and unreachable; no other peer or entry changes. */
    method HandleDelete(id: string) returns (status: nat)
      requires Valid()
      modifies `peerMap, if id in peerMap then {peerMap[id]} else {}
      ensures Valid() && peerMap == old(peerMap) - {id} && View() == old(View()) - {id}
      ensures status == if id in old(peerMap) then 202 else 422
      ensures id in old(peerMap) ==>
                Quiet(old(peerMap[id]).state) && old(peerMap[id]).state == Terminated(old(peerMap[id].state))
    {
      var peer := GetPeer(id);
      if peer == null {
        return ServiceMachine.UNPROCESSABLE_ENTITY;
      }
      DropEntry(id, {});  // peer->Terminate()
      RemovePeerFromMap(id);
      status := ServiceMachine.ACCEPTED;
    }

    /** One turn of the cleaner's loop. */
    method RefreshEntry(key: string, held: set<RtcPeer>)
      requires Valid() && key in peerMap
      modifies `peerMap, if peerMap[key].isConnected then {} else {peerMap[key]} - held
      ensures Valid() && peerMap == if old(peerMap[key].isConnected) then old(peerMap) else old(peerMap) - {key}
      ensures forall other :: other in peerMap ==> unchanged(peerMap[other])
      ensures key in peerMap || old(peerMap[key]) in held || Quiet(old(peerMap[key]).state)
    {
      if !peerMap[key].isConnected {
        DropEntry(key, held);
        peerMap := peerMap - {key};
      }
    }

    /**
    The cleaner erases while it iterates, in any order: exactly the connected entries remain, their
    peers untouched; an erased peer is terminated unless somebody still holds it, and then untouched.
    */
    method RefreshPeerMap(held: set<RtcPeer>)
      requires Valid()
      modifies `peerMap, peerMap.Values - held
      ensures Valid()
      ensures forall key :: key in peerMap <==> key in old(peerMap) && old(peerMap[key].isConnected)
      ensures forall key :: key in peerMap ==> peerMap[key] == old(peerMap)[key] && unchanged(peerMap[key])
      ensures forall key :: key in old(peerMap) && key !in peerMap && old(peerMap)[key] !in held ==>
                Quiet(old(peerMap)[key].state)
    {
      ghost var start := peerMap;
      EntriesDiffer();
      var todo := peerMap.Keys;
      while todo != {}
        invariant Valid() && todo <= peerMap.Keys <= start.Keys
        invariant forall key :: key in peerMap ==> peerMap[key] == start[key]
        invariant forall key :: key in peerMap ==> unchanged(start[key])
        invariant forall key :: key in start && key !in todo ==> (key in peerMap <==> old(start[key].isConnected))
        invariant forall key :: key in start && key !in peerMap ==> start[key] in held || Quiet(start[key].state)
        decreases todo
      {
        var key :| key in todo;
        assert peerMap[key] in start.Values;
        label turn:
        RefreshEntry(key, held);
        assert forall other :: other in start && other != key ==> unchanged@turn(start[other]);
        todo := todo - {key};
      }
    }
  }
}
