/**
 * The chat list of the sidebar: the participant entries and the joined
 * participant names a chat row shows, the unread badge and the name a row is
 * titled with.
 */
module Sidebar {
  import opened Entities
  import opened Text
  import opened StateQueries

  /** A participant as the user-image group shows it (`UserInfo`). */
  datatype UserInfo = UserInfo(platform: Platform, status: IdentityStatus, username: string, photo: string)

  /**
   * `build_participants`: one entry per identity, in order, with the
   * identity's username and picture, shown as a mobile user who is online.
   */
  method BuildParticipants(identities: seq<Identity>) returns (userInfo: seq<UserInfo>)
    ensures |userInfo| == |identities|
    ensures forall i :: 0 <= i < |identities| ==>
              && userInfo[i].username == identities[i].username
              && userInfo[i].photo == identities[i].profilePicture
              && userInfo[i].platform == Mobile && userInfo[i].status == Online
  {
    userInfo := [];
    for i := 0 to |identities|
      invariant |userInfo| == i
      invariant forall k :: 0 <= k < i ==>
                  userInfo[k] == UserInfo(Mobile, Online, identities[k].username, identities[k].profilePicture)
    {
      var identity := identities[i];
      userInfo := userInfo + [UserInfo(Mobile, Online, identity.username, identity.profilePicture)];
    }
  }

  /** The usernames of a prefix grow by the next identity's username. */
  lemma {:induction false} UsernamesSnoc(ids: seq<Identity>, i: nat)
    requires i < |ids|
    ensures Usernames(ids[..i + 1]) == Usernames(ids[..i]) + [ids[i].username]
  {
    var a := Usernames(ids[..i + 1]);
    var b := Usernames(ids[..i]) + [ids[i].username];
    assert |a| == |b|;
    forall k | 0 <= k < |a| ensures a[k] == b[k] {
      assert ids[..i + 1][k] == ids[k];
    }
  }

  /**
   * `build_participants_names`: every username followed by ", ", then the
   * last two characters popped. The result is the usernames joined by ", ",
   * and the empty string for no identities.
   */
  method BuildParticipantsNames(identities: seq<Identity>) returns (participantsName: string)
    ensures participantsName == Join(Usernames(identities), ", ")
    ensures identities == [] ==> participantsName == ""
  {
    participantsName := "";
    for i := 0 to |identities|
      invariant i == 0 ==> participantsName == ""
      invariant i > 0 ==> participantsName == Join(Usernames(identities[..i]), ", ") + ", "
    {
      var name := identities[i].username + ", ";
      UsernamesSnoc(identities, i);
      if i > 0 {
        JoinSnoc(Usernames(identities[..i]), identities[i].username, ", ");
      } else {
        assert Usernames(identities[..1]) == [identities[0].username];
      }
      participantsName := participantsName + name;
    }
    ghost var joined := Join(Usernames(identities[..|identities|]), ", ");
    // the two pops take off the trailing ", "; on an empty string they do nothing
    if participantsName != "" {
      participantsName := participantsName[..|participantsName| - 1];
    }
    if participantsName != "" {
      participantsName := participantsName[..|participantsName| - 1];
    }
    if identities != [] {
      assert participantsName == joined;
    }
    assert identities[..|identities|] == identities;
  }

  /** The badge of a chat row: the unread count in decimal, nothing when there are none. */
  function Badge(unreads: nat): (r: string)
    ensures r == "" <==> unreads == 0
    ensures unreads > 0 ==> (forall i :: 0 <= i < |r| ==> '0' <= r[i] <= '9') && DecimalValue(r) == unreads
  {
    if unreads > 0 then
      DecimalRoundTrip(unreads);
      Decimal(unreads)
    else ""
  }

  /**
   * The name a chat row is titled with, from the participants other than
   * ourselves: their joined names when there are more than two, otherwise
   * the first one's username, or the default identity's for none.
   */
  method ChatDisplayName(withoutMe: seq<Identity>) returns (name: string)
    ensures |withoutMe| > 2 ==> name == Join(Usernames(withoutMe), ", ")
    ensures 0 < |withoutMe| <= 2 ==> name == withoutMe[0].username
    ensures withoutMe == [] ==> name == DefaultIdentity().username
  {
    var parsedUser := if withoutMe != [] then withoutMe[0] else DefaultIdentity();
    if |withoutMe| > 2 {
      name := BuildParticipantsNames(withoutMe);
    } else {
      name := parsedUser.username;
    }
  }
}
