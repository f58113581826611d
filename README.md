# IRC target identity and on-connect sequencer, in Dafny

This project models two parts of the data layer of the halloy IRC client.

**Target identity** (`data/src/target.rs`). A message is addressed to a
`Target`: either a `Channel` (status prefixes, case-folded name, original
text) or a `Query` (case-folded name, original text). Identity means
equality, ordering and hashing. Equality and ordering use the folded
`normalized` name plus the variant (a channel never equals a query, and
every channel comes before every query); hashing uses the folded name alone.
The original `raw` text is for display, and status prefixes record how a
channel was addressed, not which channel it is. There are three parsers:
- `Target::parse`, which never fails;
- `Channel::parse` and `Query::parse`, which fail exactly when the other
  succeeds;
- `Channel::from_str`, which splits at the first channel-type character
  found anywhere in the text.

`join_targets` renders names as an English list.

**On-connect sequencer** (`data/src/client/on_connect.rs`). The startup
commands configured for a server are resolved once, and the unparseable
ones are dropped. The rest are replayed strictly in order:
- protocol commands are encoded and sent;
- delays suspend the sequence;
- open-buffers and leave-buffers commands become events for the caller;
- everything else is ignored.

A failed encode skips the command. A failed send is only logged.

Files:
- `wrappers.dfy`: Option and Result.
- `strings.dfy`: the standard-library string operations used:
  - lexicographic comparison, with its total-order laws;
  - `find` with a character-set pattern;
  - `join`.
- `proto.dfy`: the shape of the protocol helper `parse_channel_from_target`,
  plus one instance of it that follows the ISUPPORT convention (a run of
  STATUSMSG characters, then a name starting with a CHANTYPES character).
- `target.dfy`: `Channel`, `Query`, `Target`, the parsers, `join_targets`,
  and their laws.
- `on_connect.dfy`:
  - the resolution step;
  - the per-command dispatch rule as specification functions;
  - a `Handle` class (the sending end of the connection; `Close` stands for
    the receiving end being dropped, after which every send fails);
  - a `Stream` class holding an index into the resolved commands and a
    trace of `Send`, `Sleep` and `Emit` effects.

The external helpers are parameters:
- `CaseMap::normalize` is the function field `fold` of `CaseMap`;
- `parse_channel_from_target` is a `ChannelSplit` argument;
- `command::parse` (with the nickname and ISUPPORT table already bound) is a
  `Resolver` argument;
- `Encoded::try_from` is an `Encoder` argument.

## Model

| member | source | states |
|---|---|---|
| `Targets.Target.AsChannel` | data/src/target.rs:18-30 | `as_channel`/`to_channel` yield a channel exactly for the channel variant, and it is the wrapped one |
| `Targets.Target.AsQuery` | data/src/target.rs:32-44 | `as_query`/`to_query` yield a query exactly for the query variant, and it is the wrapped one |
| `Targets.ParseTarget` | data/src/target.rs:60-80 | never fails; a channel exactly when the protocol helper finds one, otherwise a query; `raw` is the input; the channel keeps the helper's prefixes and folds its name; the query folds the whole input |
| `Targets.Channel.ToTarget` | data/src/target.rs:211-213 | the target wraps this channel, and its name and display text are the channel's |
| `Targets.Query.ToTarget` | data/src/target.rs:319-321 | the target wraps this query, and its name and display text are the query's |
| `Targets.ChannelFromStr` | data/src/target.rs:163-186 | `raw` is the input. The prefixes are the text before the first CHANTYPES character, and contain none. The name is the folded rest, which starts with that character. With no such character, there are no prefixes and the whole input is folded |
| `Targets.ParseChannel` | data/src/target.rs:188-205 | succeeds exactly when the protocol helper finds a channel, with its prefixes, folded name and the input as `raw`; otherwise `InvalidChannel(input)` |
| `Targets.ParseQuery` | data/src/target.rs:301-317 | succeeds exactly when the protocol helper finds no channel, folding the whole input; otherwise `InvalidQuery(input)` |
| `Targets.QueryFromNick` | data/src/target.rs:275-290 | a query from a nickname takes over the display and normalised forms as they are, with no second folding |
| `Targets.ParseError.Message` | data/src/target.rs:356-362 | the display text of each parse error is longer than the rejected input and ends with it |
| `Targets.MessageIdentifiesError` | data/src/target.rs:356-362 | two parse errors have the same display text exactly when they are the same error: the fixed phrase tells a channel error from a query error, and the tail gives the input |
| `Targets.ParseChannelQueryComplement` | data/src/target.rs:188-205 | `Channel::parse` succeeds exactly when `Query::parse` fails on the same arguments (the query side is lines 301-317), and each error carries the input |
| `Targets.ParseAgreesWithParseTarget` | data/src/target.rs:60-80 | when either fallible parser succeeds, `Target::parse` yields exactly that payload in the matching variant |
| `Targets.ParseTargetConsistent` | data/src/target.rs:66-73 | under the ISUPPORT convention, a parsed channel's `raw` is its prefixes followed by its name, and `normalized` folds that name |
| `Targets.ChannelFromStrAgreesWithParse` | data/src/target.rs:163-205 | under the ISUPPORT convention, `Channel::parse` succeeds exactly when `from_str` finds a CHANTYPES character and all its prefixes are STATUSMSG characters, and then both build the same channel |
| `Targets.StatusPrefixedChannelIsSameChannel` | data/src/target.rs:216-220 | under the ISUPPORT convention (STATUSMSG "@", CHANTYPES "#"), "@#chan" and "#chan" parse to equal channels, with prefixes "@" and none |
| `Targets.Channel.Eq` | data/src/target.rs:216-228 | two channels are equal exactly when they feed the hasher the same key (the folded name) |
| `Targets.Channel.Cmp` | data/src/target.rs:230-234 | channel comparison answers `Equal` exactly when the channels are equal |
| `Targets.Query.Eq` | data/src/target.rs:324-336 | two queries are equal exactly when they feed the hasher the same key (the folded name) |
| `Targets.Query.Cmp` | data/src/target.rs:338-342 | query comparison answers `Equal` exactly when the queries are equal |
| `Targets.Target.AsNormalizedStr` | data/src/target.rs:46-51 | the folded name of the wrapped channel or query |
| `Targets.Target.AsStr` | data/src/target.rs:53-58 | the original text of the wrapped channel or query |
| `Targets.Target.Eq` | data/src/target.rs:83-95 | two targets are equal exactly when they are the same variant with the same folded name |
| `Targets.Target.HashKey` | data/src/target.rs:99-106 | the hasher is fed the folded name, whichever variant it is |
| `Targets.Target.Cmp` | data/src/target.rs:108-127 | `cmp` answers `Equal` exactly when `eq` holds; every channel is less than every query and every query greater than every channel; within a variant it is the lexicographic order of the folded names |
| `Targets.Target.ToString` | data/src/target.rs:129-136 | a target displays as its original text (`as_str`) |
| `Targets.DisplayRoundTrip` | data/src/target.rs:242-246 | displaying a channel or query built by any of the parsers (the query side is lines 350-354) gives back the text it was parsed from |
| `Targets.ChannelIdentityIgnoresDisplay` | data/src/target.rs:216-234 | channels differing only in prefixes and `raw` are equal, compare `Equal` and hash the same key |
| `Targets.QueryIdentityIgnoresDisplay` | data/src/target.rs:324-342 | queries differing only in `raw` are equal, compare `Equal` and hash the same key |
| `Targets.EqImpliesSameHash` | data/src/target.rs:83-106 | equal targets have the same variant and feed the hasher the same string |
| `Targets.EqIsEquivalence` | data/src/target.rs:83-97 | target equality is reflexive, symmetric and transitive |
| `Targets.TargetCmpAntisymmetric` | data/src/target.rs:108-121 | swapping the operands of `cmp` reverses the answer |
| `Targets.TargetCmpTransitive` | data/src/target.rs:108-121 | `Less` is transitive, within and across variants; together with `TargetCmpAntisymmetric`, the `Equal`-iff-`eq` clause of `Target.Cmp` and `EqIsEquivalence`, this makes `cmp` a total order |
| `Targets.QueryFromNickIdentity` | data/src/target.rs:275-290 | queries built from nicknames are equal exactly when the nicknames' normalised forms are |
| `Targets.JoinTargets` | data/src/target.rs:364-381 | a non-empty list of names renders as text that starts with the first name and ends with the last |
| `Targets.JoinTargetsIsSerialList` | data/src/target.rs:364-381 | `join_targets` equals an independent left-to-right definition of the serial-comma list |
| `Targets.JoinTargetsSerialComma` | data/src/target.rs:369-373 | with three or more names: all but the last joined by ", ", then ", and ", then the last |
| `Targets.JoinTargetsExamples` | data/src/target.rs:364-381 | outputs "", "a", "a and b" and "a, b, and c" |
| `Strings.Cmp` | data/src/target.rs:230-234 | string comparison answers `Equal` exactly for identical strings |
| `Strings.CmpAntisymmetric` | data/src/target.rs:230-234 | swapping the operands of string comparison reverses the answer |
| `Strings.CmpTransitive` | data/src/target.rs:230-234 | `Less` on strings is transitive |
| `Strings.Join` | data/src/target.rs:372 | `join` of a non-empty list starts with the first item |
| `Strings.JoinLength` | data/src/target.rs:372 | `join` holds the items and one separator per neighbouring pair, and nothing else: its length is the items' total plus one separator per pair |
| `Strings.FindAny` | data/src/target.rs:168 | `find` gives the index of the first character in the set, and there is none exactly when no character of the text is in the set |
| `Proto.StatusMsgSplit` | data/src/target.rs:66-67 | an accepted split is prefixes followed by a name; the name starts with a CHANTYPES character; the prefixes are all STATUSMSG characters and include no CHANTYPES character |
| `Proto.StatusMsgSplitComplete` | data/src/target.rs:66-67 | the convention instance finds a channel exactly when the text is some run of STATUSMSG characters followed by a CHANTYPES character |
| `OnConnect.Resolve` | data/src/client/on_connect.rs:44-50 | resolving never yields more commands than configured strings |
| `OnConnect.ResolvedExactly` | data/src/client/on_connect.rs:44-50 | a command is resolved exactly when some configured string resolves to it |
| `OnConnect.ResolveOne` | data/src/client/on_connect.rs:47-49 | a string that fails to resolve contributes nothing; one that resolves contributes its command |
| `OnConnect.ResolveAppend` | data/src/client/on_connect.rs:44-50 | resolution keeps configured order: resolving a concatenation concatenates the results |
| `OnConnect.EventOf` | data/src/client/on_connect.rs:69-85 | a command yields an event exactly when it is an open-buffers or leave-buffers command |
| `OnConnect.EffectsOf` | data/src/client/on_connect.rs:58-86 | one command does at most one thing |
| `OnConnect.DispatchRule` | data/src/client/on_connect.rs:58-86 | A protocol command never yields an event, and is sent exactly when it encodes. `OpenBuffers(ts)` and `LeaveBuffers(ts, r)` emit those exact events. `Delay(n)` sleeps n seconds. Clear-buffer, hop and sysinfo do nothing |
| `OnConnect.EffectsAppend` | data/src/client/on_connect.rs:52-54 | the pass handles commands strictly in order: the effects of a concatenation are the effects of each part in turn |
| `OnConnect.ConfiguredOrderPreserved` | data/src/client/on_connect.rs:44-54 | sends, sleeps and events appear in the order of their configured strings |
| `OnConnect.EmittedAreEvents` | data/src/client/on_connect.rs:52-89 | the events of the trace are exactly the events of the pass, in order |
| `OnConnect.EventCount` | data/src/client/on_connect.rs:69-85 | there is one event per buffer command, so never more events than commands |
| `OnConnect.ConfiguredEventBound` | data/src/client/on_connect.rs:44-88 | never more events than configured strings |
| `OnConnect.StartupExample` | data/src/client/on_connect.rs:44-80 | ["JOIN #a", "bogus-garbage", "DELAY 2", "JOIN #b"] sends the first join, sleeps 2 seconds, then sends the second join; the bad entry leaves nothing |
| `OnConnect.Pull` | data/src/client/on_connect.rs:52-89 | one pull of the stream stops right after the first command that yields an event, returning that event, or stops at the end with none |
| `OnConnect.PullSkipsSilent` | data/src/client/on_connect.rs:52-89 | a pull passes over only commands that yield no event |
| `OnConnect.Handle.Send` | data/src/client/on_connect.rs:62-63 | a send fails exactly when the receiving end is closed; otherwise the message is delivered after the earlier ones |
| `OnConnect.Stream.constructor` | data/src/client/on_connect.rs:38-50 | `on_connect` resolves every configured string up front and processes nothing yet |
| `OnConnect.Stream.Step` | data/src/client/on_connect.rs:54-86 | processing one command appends exactly its effects to the trace and returns its event. The handle receives the sent message unless the handle is closed. The send outcome changes nothing else |
| `OnConnect.Stream.Next` | data/src/client/on_connect.rs:52-89 | a pull advances exactly as `Pull` says and appends the effects of the commands it passed. The handle's state never changes which commands run or what the trace records |
| `OnConnect.Stream.Drain` | data/src/client/on_connect.rs:52-89 | pulling until the end yields every event of the remaining commands, in order, and leaves the trace equal to the whole pass. The handle's closed state is unchanged; unless it is closed, it has received exactly the messages sent for the remaining commands, in order, after what it held before |

## Left out

- Serialization: the serde derives, and so the round trip of the three fields through persisted state.
- Reference counting: the `Arc` payloads are plain immutable values.
- The real `Hasher`: hashing is modelled only as the key fed to it (`HashKey`, the folded name).
- `to_channel` and `to_query`: moving and borrowing cannot be told apart for values, so `AsChannel` and `AsQuery` stand for both forms.
- `From<User>` and `From<&User>`: the user model is not part of this model. Both go through the user's nickname, and that conversion is `QueryFromNick`.
- `CaseMap::normalize`: its body is not part of this model. It is the arbitrary total function `CaseMap.fold`.
- `parse_channel_from_target`: its body is not part of this model. It is an arbitrary `ChannelSplit` argument. `StatusMsgSplit` is only the ISUPPORT-convention instance, used by the lemmas that name it.
- `command::parse` and `Encoded::try_from`: their bodies are not part of this model. They are arbitrary partial functions.
- Error kinds: a failed resolution or encoding is modelled as `None`, since its kind is never inspected.
- Byte offsets: `find` returns a UTF-8 byte offset and `split_at` takes one. The model works on character indices, which split the text at the same place.
- Time: the async stream machinery (`BoxStream`, `poll_next` wakeups), real sleeping and wall-clock time. A delay is a `Sleep(n)` entry in the trace, and `Duration::from_secs` is not modelled.
- Logging: `log::warn!` on a failed send.
- The transport behind the connection handle: `Handle` keeps only the delivered messages and whether the receiving end is closed.
- `Debug` for `Stream`, and `Display` beyond returning `raw` (`ToString` on each type).
