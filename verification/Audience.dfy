/** Who of an audience page is put into a shard. */
module Audience {
  import opened Status

  datatype TargetUser = TargetUser(id: string, channels: seq<Channel>)

  /** A campaign's filter. The experiment group and the percentage sample are stable hashes of the
      user id; they are left as the two sets of ids they select. */
  datatype Filter = Filter(
    channels: seq<Channel>, excluded: set<string>,
    experiment: bool, control: iset<string>, sampling: bool, sampled: iset<string>)
  {
    predicate Keeps(u: TargetUser) {
      && u.id != ""
      && u.id !in excluded
      && (if experiment then u.id !in control else sampling ==> u.id in sampled)
      && |IntersectChannels(channels, u.channels)| > 0
    }
  }

  /** The campaign's chain cut down to what the user can receive; a user without channels takes the chain. */
  function IntersectChannels(task: seq<Channel>, user: seq<Channel>): (r: seq<Channel>)
    ensures |task| > 0 && |user| == 0 ==> r == task
    ensures forall c :: c in r <==> c in task && (|user| == 0 || c in user)
  {
    if task == [] then []
    else if user == [] || task[0] in user then
      var rest := IntersectChannels(task[1..], user);
      assert task == [task[0]] + task[1..];
      [task[0]] + rest
    else
      assert task == [task[0]] + task[1..];
      IntersectChannels(task[1..], user)
  }

  /** The ids a page contributes, in page order. */
  function KeptIds(f: Filter, users: seq<TargetUser>): (ids: seq<string>)
    ensures |ids| <= |users|
  {
    if users == [] then []
    else (if f.Keeps(users[0]) then [users[0].id] else []) + KeptIds(f, users[1..])
  }

  lemma {:induction false} KeptIdsConcat(f: Filter, a: seq<TargetUser>, b: seq<TargetUser>)
    ensures KeptIds(f, a + b) == KeptIds(f, a) + KeptIds(f, b)
  {
    if a == [] {
      assert a + b == b;
    } else {
      assert (a + b)[1..] == a[1..] + b;
      KeptIdsConcat(f, a[1..], b);
    }
  }

  /** One user is kept who has an id, is not excluded, is in no control group of an experiment, is in the sample when there
      is one and no experiment, and can be reached on a channel of the campaign. */
  lemma KeptOne(f: Filter, u: TargetUser)
    ensures KeptIds(f, [u]) ==
      if && u.id != "" && u.id !in f.excluded
         && (f.experiment ==> u.id !in f.control)
         && (f.sampling && !f.experiment ==> u.id in f.sampled)
         && exists c :: c in f.channels && (u.channels == [] || c in u.channels)
      then [u.id] else []
  {
    var chs := IntersectChannels(f.channels, u.channels);
    if c :| c in f.channels && (u.channels == [] || c in u.channels) { assert c in chs; }
    if chs != [] { assert chs[0] in chs; }
    assert [u][1..] == [];
  }

  /** And a page keeps the ids of exactly these of its users. */
  lemma {:induction false} KeptIdsMembers(f: Filter, users: seq<TargetUser>, id: string)
    ensures id in KeptIds(f, users) <==>
      && id != "" && id !in f.excluded
      && (f.experiment ==> id !in f.control)
      && (f.sampling && !f.experiment ==> id in f.sampled)
      && exists u :: u in users && u.id == id && Reachable(f.channels, u.channels)
  {
    if users != [] {
      KeptOne(f, users[0]);
      KeptIdsMembers(f, users[1..], id);
      assert users == [users[0]] + users[1..];
      KeptIdsConcat(f, [users[0]], users[1..]);
      assert forall u :: u in users <==> u == users[0] || u in users[1..];
    }
  }

  /** Some channel of the campaign is one of the user's, who may have named none. */
  predicate Reachable(task: seq<Channel>, user: seq<Channel>) {
    exists c :: c in task && (user == [] || c in user)
  }

  function Flatten<T>(parts: seq<seq<T>>): seq<T> {
    if parts == [] then [] else Flatten(parts[..|parts| - 1]) + parts[|parts| - 1]
  }

  lemma FlattenAppend<T>(parts: seq<seq<T>>, last: seq<T>)
    ensures Flatten(parts + [last]) == Flatten(parts) + last
  {
    assert (parts + [last])[..|parts|] == parts;
  }
}
