/**
 The protocol helper that decides whether an addressing string names a
 channel, given the server's CHANTYPES and STATUSMSG parameters
 (`proto::parse_channel_from_target`). Its body is not part of this model:
 the target parsers take it as a parameter of type `ChannelSplit`.
 `StatusMsgSplit` is one instance, the ISUPPORT convention "a leading run
 of STATUSMSG characters, then a name that starts with a CHANTYPES
 character", with that convention proved of it.
 */
module Proto {

  import opened Wrappers
  import opened Strings

  /**
   `parse_channel_from_target(target, chantypes, statusmsg)`: on success the
   status-prefix characters and the channel name.
   */
  type ChannelSplit = (string, seq<char>, seq<char>) -> Option<(seq<char>, string)>

  /** `target` is a run of STATUSMSG characters followed by a channel name starting at `i`. */
  predicate ChannelAt(target: string, chantypes: seq<char>, statusmsg: seq<char>, i: nat) {
    i < |target| && target[i] in chantypes && AllIn(target[..i], statusmsg)
  }

  /**
   The ISUPPORT convention: split at the first CHANTYPES character, and
   accept the split when every character before it is a STATUSMSG character.
   */
  function StatusMsgSplit(target: string, chantypes: seq<char>, statusmsg: seq<char>): (r: Option<(seq<char>, string)>)
    ensures r.Some? ==> r.value.0 + r.value.1 == target
    ensures r.Some? ==> r.value.1 != [] && r.value.1[0] in chantypes
    ensures r.Some? ==> AllIn(r.value.0, statusmsg) && !ContainsAny(r.value.0, chantypes)
  {
    match FindAny(target, chantypes)
    case None => None
    case Some(i) =>
      if AllIn(target[..i], statusmsg) then Some((target[..i], target[i..])) else None
  }

  /** `StatusMsgSplit` succeeds exactly when some split of the convention's shape exists. */
  lemma StatusMsgSplitComplete(target: string, chantypes: seq<char>, statusmsg: seq<char>)
    ensures StatusMsgSplit(target, chantypes, statusmsg).Some?
        <==> exists i: nat :: ChannelAt(target, chantypes, statusmsg, i)
  {
    var r := StatusMsgSplit(target, chantypes, statusmsg);
    if r.Some? {
      assert ChannelAt(target, chantypes, statusmsg, |r.value.0|) by {
        assert target[..|r.value.0|] == r.value.0;
      }
    } else if i: nat :| ChannelAt(target, chantypes, statusmsg, i) {
      var j := FindAny(target, chantypes).value;
      assert j <= i;
      assert AllIn(target[..j], statusmsg) by {
        forall k | 0 <= k < j ensures target[..j][k] in statusmsg {
          assert target[..j][k] == target[..i][k];
        }
      }
      assert false;
    }
  }
}
