/** The batch run: for each domain in file order, fetch its favicon and,
    when the fetch returned a body, hand that body to the one storage sink
    the switch selects. The fetch is an input (one outcome per domain,
    `None` for a failed request), and the two sinks are observed through
    the log of storage actions they are asked to perform. */
module Scraper {
  import opened Domains
  import opened Naming

  newtype byte = b: int | 0 <= b < 256

  /** A response body, byte for byte. */
  type Bytes = seq<byte>

  datatype Option<T> = None | Some(value: T)

  /** The two storage back ends: an object-store bucket, or the local disk. */
  datatype Sink = S3(bucket: string) | Local

  /** One request to a sink: store `body` under `name` (an object key in
      the bucket, or a file path on disk). */
  datatype Action = Action(sink: Sink, name: string, body: Bytes)

  /** The run's configuration: the storage switch (upload when true, write
      locally when false) and the bucket uploads go to. */
  datatype Config = Config(s3Switch: bool, bucket: string)

  /** `upload_to_s3`: the body goes to the bucket under
      `public/favicons/<file name>`. */
  function UploadToS3(bucket: string, body: Bytes, fileName: string): (a: Action)
    ensures a.sink == S3(bucket) && a.body == body
    ensures |a.name| == |KeyPrefix| + |fileName|
    ensures a.name[..|KeyPrefix|] == KeyPrefix && a.name[|KeyPrefix|..] == fileName
  {
    Action(S3(bucket), ObjectKey(fileName), body)
  }

  /** `save_locally`: the body is written to the given path. */
  function SaveLocally(body: Bytes, path: string): Action
  {
    Action(Local, path, body)
  }

  /** Where a fetched body for `domain` is meant to go: the bucket when the
      switch is on, the local directory when it is off. The body is stored
      unchanged, and the name carries the domain's file name: after the
      icon folder in the bucket, at the end of the local path. */
  function Store(cfg: Config, domain: string, body: Bytes): (a: Action)
    ensures a.body == body
    ensures a.sink == (if cfg.s3Switch then S3(cfg.bucket) else Local)
    ensures cfg.s3Switch ==>
              |KeyPrefix| <= |a.name| && a.name[..|KeyPrefix|] == KeyPrefix && a.name[|KeyPrefix|..] == FileName(domain)
    ensures !cfg.s3Switch ==>
              var name := FileName(domain);
              |name| <= |a.name| && a.name[|a.name| - |name|..] == name
  {
    if cfg.s3Switch then Action(S3(cfg.bucket), ObjectKey(FileName(domain)), body)
    else Action(Local, JoinPath(LocalDirectory, FileName(domain)), body)
  }

  /** What one domain is meant to contribute to the log: nothing when its
      fetch failed, one store of the body when it succeeded. */
  function Outcome(cfg: Config, domain: string, fetched: Option<Bytes>): (out: seq<Action>)
    ensures |out| == (if fetched.Some? then 1 else 0)
    ensures fetched.Some? ==> out[0].body == fetched.value
  {
    match fetched
    case None => []
    case Some(body) => [Store(cfg, domain, body)]
  }

  /** The storage actions the run is meant to perform for `domains`, whose
      fetches came back as `fetched`, in domain order. */
  function Dispatch(cfg: Config, domains: seq<string>, fetched: seq<Option<Bytes>>): (log: seq<Action>)
    requires |fetched| == |domains|
    ensures |log| <= |domains|
  {
    if domains == [] then []
    else Outcome(cfg, domains[0], fetched[0]) + Dispatch(cfg, domains[1..], fetched[1..])
  }

  /** `main`: read the domains from the lines of the domains file, then
      for each domain in order take its fetch outcome and, if there is a
      body, compute the file name and local path and store the body with
      the sink the switch selects. The log is exactly what `Dispatch`
      prescribes. */
  method Run(cfg: Config, lines: seq<string>, fetched: seq<Option<Bytes>>) returns (log: seq<Action>)
    requires |fetched| == |ReadDomains(lines)|
    ensures log == Dispatch(cfg, ReadDomains(lines), fetched)
  {
    var domains := ReadDomains(lines);
    log := [];
    for i := 0 to |domains|
      invariant log == Dispatch(cfg, domains[..i], fetched[..i])
    {
      var domain := domains[i];
      var fileObj := fetched[i];
      ghost var before := log;
      if fileObj.Some? {
        var fileName := FileName(domain);
        var localFilePath := JoinPath(LocalDirectory, fileName);
        if cfg.s3Switch {
          log := log + [UploadToS3(cfg.bucket, fileObj.value, fileName)];
        }
        if cfg.s3Switch == false {
          log := log + [SaveLocally(fileObj.value, localFilePath)];
        }
        assert log == before + [Store(cfg, domain, fileObj.value)];
      }
      DispatchStep(cfg, domains, fetched, i);
    }
    WholePrefix(domains);
    WholePrefix(fetched);
  }

  /** The prefix of `s` as long as `s` is `s` itself. */
  lemma WholePrefix<T>(s: seq<T>)
    ensures s[..|s|] == s
  {
  }

  /** Taking one more element of `s` appends that element. */
  lemma PrefixGrows<T>(s: seq<T>, i: nat)
    requires i < |s|
    ensures s[..i + 1] == s[..i] + [s[i]]
  {
  }

  /** Handling one more domain appends that domain's outcome to the log. */
  lemma DispatchStep(cfg: Config, domains: seq<string>, fetched: seq<Option<Bytes>>, i: nat)
    requires |fetched| == |domains| && i < |domains|
    ensures Dispatch(cfg, domains[..i + 1], fetched[..i + 1])
            == Dispatch(cfg, domains[..i], fetched[..i]) + Outcome(cfg, domains[i], fetched[i])
  {
    PrefixGrows(domains, i);
    PrefixGrows(fetched, i);
    DispatchAppend(cfg, domains[..i], fetched[..i], [domains[i]], [fetched[i]]);
    assert Dispatch(cfg, [domains[i]], [fetched[i]]) == Outcome(cfg, domains[i], fetched[i]);
  }

  /** Domains are handled one after the other and independently: the log
      for two runs of domains is the two logs one after the other. */
  lemma {:induction false} DispatchAppend(cfg: Config, d1: seq<string>, f1: seq<Option<Bytes>>,
                                          d2: seq<string>, f2: seq<Option<Bytes>>)
    requires |f1| == |d1| && |f2| == |d2|
    ensures Dispatch(cfg, d1 + d2, f1 + f2) == Dispatch(cfg, d1, f1) + Dispatch(cfg, d2, f2)
  {
    if d1 == [] {
      assert d1 + d2 == d2 && f1 + f2 == f2;
    } else {
      assert (d1 + d2)[0] == d1[0] && (d1 + d2)[1..] == d1[1..] + d2;
      assert (f1 + f2)[0] == f1[0] && (f1 + f2)[1..] == f1[1..] + f2;
      DispatchAppend(cfg, d1[1..], f1[1..], d2, f2);
    }
  }

  /** A failed fetch stores nothing and the run goes on with the next
      domain: the log is the one the other domains give on their own. */
  lemma FailedFetchSkipped(cfg: Config, d1: seq<string>, f1: seq<Option<Bytes>>, domain: string,
                           d2: seq<string>, f2: seq<Option<Bytes>>)
    requires |f1| == |d1| && |f2| == |d2|
    ensures Dispatch(cfg, d1 + [domain] + d2, f1 + [None] + f2) == Dispatch(cfg, d1 + d2, f1 + f2)
  {
    var d, f := d1 + [domain], f1 + [None];
    DispatchAppend(cfg, d1, f1, [domain], [None]);
    assert Dispatch(cfg, [domain], [None]) == [];
    assert Dispatch(cfg, d, f) == Dispatch(cfg, d1, f1);
    DispatchAppend(cfg, d, f, d2, f2);
    DispatchAppend(cfg, d1, f1, d2, f2);
  }

  /** Each domain gets the two complementary tests of the loop body: a
      failed fetch yields no action; a successful one yields exactly one,
      to the bucket under the object key when the switch is on and to the
      local file when it is off, carrying the body unchanged, even an
      empty one. */
  lemma OutcomeOfOneDomain(cfg: Config, domain: string, fetched: Option<Bytes>)
    ensures fetched.None? ==> Outcome(cfg, domain, fetched) == []
    ensures fetched.Some? ==>
              var out := Outcome(cfg, domain, fetched);
              |out| == 1 && out[0].body == fetched.value
              && (cfg.s3Switch ==> out[0] == UploadToS3(cfg.bucket, fetched.value, FileName(domain)))
              && (!cfg.s3Switch ==>
                    out[0] == SaveLocally(fetched.value, JoinPath(LocalDirectory, FileName(domain))))
  {
  }

  /** The positions, from `from` on, of the domains whose fetch succeeded,
      in increasing order. */
  function SucceededFrom(fetched: seq<Option<Bytes>>, from: nat): (idx: seq<nat>)
    requires from <= |fetched|
    ensures forall k :: 0 <= k < |idx| ==> from <= idx[k] < |fetched|
    ensures forall k, l :: 0 <= k < l < |idx| ==> idx[k] < idx[l]
    decreases |fetched| - from
  {
    if from == |fetched| then []
    else if fetched[from].None? then SucceededFrom(fetched, from + 1)
    else [from] + SucceededFrom(fetched, from + 1)
  }

  /** `SucceededFrom` lists every successful fetch from `from` on and no
      failed one. */
  lemma {:induction false} SucceededFromComplete(fetched: seq<Option<Bytes>>, from: nat)
    requires from <= |fetched|
    ensures forall i :: from <= i < |fetched| ==> (i in SucceededFrom(fetched, from) <==> fetched[i].Some?)
    decreases |fetched| - from
  {
    if from < |fetched| {
      SucceededFromComplete(fetched, from + 1);
      var rest := SucceededFrom(fetched, from + 1);
      assert from !in rest;
    }
  }

  /** Running from position `from` on is handling domain `from`, then the rest. */
  lemma DispatchFrom(cfg: Config, domains: seq<string>, fetched: seq<Option<Bytes>>, from: nat)
    requires |fetched| == |domains| && from < |domains|
    ensures Dispatch(cfg, domains[from..], fetched[from..])
            == Outcome(cfg, domains[from], fetched[from]) + Dispatch(cfg, domains[from + 1..], fetched[from + 1..])
  {
    assert domains[from..][0] == domains[from] && domains[from..][1..] == domains[from + 1..];
    assert fetched[from..][0] == fetched[from] && fetched[from..][1..] == fetched[from + 1..];
  }

  /** There is one storage action per successful fetch. */
  lemma {:induction false} DispatchCount(cfg: Config, domains: seq<string>, fetched: seq<Option<Bytes>>, from: nat)
    requires |fetched| == |domains| && from <= |domains|
    ensures |Dispatch(cfg, domains[from..], fetched[from..])| == |SucceededFrom(fetched, from)|
    decreases |domains| - from
  {
    if from == |domains| {
      assert domains[from..] == [] && fetched[from..] == [];
    } else {
      DispatchCount(cfg, domains, fetched, from + 1);
      DispatchFrom(cfg, domains, fetched, from);
    }
  }

  /** A failed fetch at `from` adds nothing to the log or to the positions
      of successful fetches. */
  lemma DispatchFromFailed(cfg: Config, domains: seq<string>, fetched: seq<Option<Bytes>>, from: nat)
    requires |fetched| == |domains| && from < |domains| && fetched[from].None?
    ensures Dispatch(cfg, domains[from..], fetched[from..]) == Dispatch(cfg, domains[from + 1..], fetched[from + 1..])
    ensures SucceededFrom(fetched, from) == SucceededFrom(fetched, from + 1)
  {
    DispatchFrom(cfg, domains, fetched, from);
  }

  /** A successful fetch at `from` puts its store first in the log, and
      `from` first among the positions of successful fetches. */
  lemma DispatchFromStored(cfg: Config, domains: seq<string>, fetched: seq<Option<Bytes>>, from: nat)
    requires |fetched| == |domains| && from < |domains| && fetched[from].Some?
    ensures Dispatch(cfg, domains[from..], fetched[from..])
            == [Store(cfg, domains[from], fetched[from].value)] + Dispatch(cfg, domains[from + 1..], fetched[from + 1..])
    ensures SucceededFrom(fetched, from) == [from] + SucceededFrom(fetched, from + 1)
  {
    DispatchFrom(cfg, domains, fetched, from);
  }

  /** The `k`-th storage action belongs to the `k`-th domain whose fetch
      succeeded: it stores exactly that domain's body, at the sink the
      switch selects. */
  lemma {:induction false} DispatchAt(cfg: Config, domains: seq<string>, fetched: seq<Option<Bytes>>,
                                      from: nat, k: nat)
    requires |fetched| == |domains| && from <= |domains| && k < |SucceededFrom(fetched, from)|
    ensures var log, i := Dispatch(cfg, domains[from..], fetched[from..]), SucceededFrom(fetched, from)[k];
            k < |log| && fetched[i].Some? && log[k] == Store(cfg, domains[i], fetched[i].value)
    decreases |domains| - from
  {
    DispatchCount(cfg, domains, fetched, from);
    var log, rest := Dispatch(cfg, domains[from..], fetched[from..]),
                     Dispatch(cfg, domains[from + 1..], fetched[from + 1..]);
    var idx := SucceededFrom(fetched, from + 1);
    if fetched[from].None? {
      DispatchFromFailed(cfg, domains, fetched, from);
      DispatchAt(cfg, domains, fetched, from + 1, k);
      assert log[k] == rest[k] && SucceededFrom(fetched, from)[k] == idx[k];
    } else {
      DispatchFromStored(cfg, domains, fetched, from);
      if k > 0 {
        DispatchAt(cfg, domains, fetched, from + 1, k - 1);
        assert log[k] == rest[k - 1] && SucceededFrom(fetched, from)[k] == idx[k - 1];
      } else {
        assert log[0] == Store(cfg, domains[from], fetched[from].value) && SucceededFrom(fetched, from)[0] == from;
      }
    }
  }

  /** Every action goes to the sink the switch selects: all to the
      configured bucket when it is on, all to local files when it is off. */
  lemma {:induction false} DispatchSinks(cfg: Config, domains: seq<string>, fetched: seq<Option<Bytes>>)
    requires |fetched| == |domains|
    ensures forall a :: a in Dispatch(cfg, domains, fetched) ==>
              a.sink == (if cfg.s3Switch then S3(cfg.bucket) else Local)
  {
    if domains != [] {
      DispatchSinks(cfg, domains[1..], fetched[1..]);
    }
  }

  /** What the sinks hold after the actions of `log`, keyed by sink and
      name, when they held `before` to begin with: a store under a name
      replaces whatever was there, and nothing is ever removed. */
  function Stored(before: map<(Sink, string), Bytes>, log: seq<Action>): map<(Sink, string), Bytes>
  {
    if log == [] then before
    else Stored(before, log[..|log| - 1])[(log[|log| - 1].sink, log[|log| - 1].name) := log[|log| - 1].body]
  }

  /** The place an action stores into: its sink and its name there. */
  function Slot(a: Action): (Sink, string)
  {
    (a.sink, a.name)
  }

  /** Two domains are stored into the same place exactly when their first
      labels agree, whatever the switch and the bodies. */
  lemma SlotCollision(cfg: Config, d1: string, b1: Bytes, d2: string, b2: Bytes)
    ensures Slot(Store(cfg, d1, b1)) == Slot(Store(cfg, d2, b2)) <==> FirstLabel(d1) == FirstLabel(d2)
  {
    ObjectKeyCollision(d1, d2);
    LocalPathCollision(d1, d2);
  }

  /** The places filled afterwards are those filled before and those some
      action of `log` stores into: nothing already stored is cleared. */
  lemma {:induction false} StoredPlaces(before: map<(Sink, string), Bytes>, log: seq<Action>, place: (Sink, string))
    ensures place in Stored(before, log) <==> place in before || exists i :: 0 <= i < |log| && Slot(log[i]) == place
  {
    if log != [] {
      var init := log[..|log| - 1];
      StoredPlaces(before, init, place);
      if place !in before && place in Stored(before, init) {
        var i :| 0 <= i < |init| && Slot(init[i]) == place;
        assert log[i] == init[i];
      }
      if exists i :: 0 <= i < |log| && Slot(log[i]) == place {
        var i :| 0 <= i < |log| && Slot(log[i]) == place;
        if i < |init| {
          assert init[i] == log[i];
        }
      }
    }
  }

  /** A place no action of `log` stores into keeps what it held before:
      the run does not clear the bucket or the local directory. */
  lemma {:induction false} StoredUntouched(before: map<(Sink, string), Bytes>, log: seq<Action>, place: (Sink, string))
    requires place in before
    requires forall i :: 0 <= i < |log| ==> Slot(log[i]) != place
    ensures place in Stored(before, log) && Stored(before, log)[place] == before[place]
  {
    if log != [] {
      var init := log[..|log| - 1];
      forall i | 0 <= i < |init| ensures Slot(init[i]) != place {
        assert init[i] == log[i];
      }
      StoredUntouched(before, init, place);
      assert Slot(log[|log| - 1]) != place;
    }
  }

  /** Last write wins: the place of the `i`-th action holds its body when
      no later action stores into the same place. */
  lemma {:induction false} StoredLast(before: map<(Sink, string), Bytes>, log: seq<Action>, i: nat)
    requires i < |log|
    requires forall j :: i < j < |log| ==> Slot(log[j]) != Slot(log[i])
    ensures Slot(log[i]) in Stored(before, log) && Stored(before, log)[Slot(log[i])] == log[i].body
  {
    if i < |log| - 1 {
      var init := log[..|log| - 1];
      forall j | i < j < |init| ensures Slot(init[j]) != Slot(init[i]) {
        assert init[j] == log[j] && init[i] == log[i];
      }
      StoredLast(before, init, i);
      assert Slot(log[|log| - 1]) != Slot(log[i]);
    }
  }

  /** Over a whole run, the place a domain's icon is stored into ends up
      holding that domain's body when no later domain whose fetch succeeded
      has the same first label; a later one with the same first label
      overwrites it, as `SlotCollision` and `StoredLast` show. */
  lemma LastWriteWins(before: map<(Sink, string), Bytes>, cfg: Config,
                      domains: seq<string>, fetched: seq<Option<Bytes>>, i: nat)
    requires |fetched| == |domains| && i < |domains| && fetched[i].Some?
    requires forall j :: i < j < |domains| && fetched[j].Some? ==> FirstLabel(domains[j]) != FirstLabel(domains[i])
    ensures var log, place := Dispatch(cfg, domains, fetched), Slot(Store(cfg, domains[i], fetched[i].value));
            place in Stored(before, log) && Stored(before, log)[place] == fetched[i].value
  {
    assert domains[0..] == domains && fetched[0..] == fetched;
    var log := Dispatch(cfg, domains, fetched);
    var idx := SucceededFrom(fetched, 0);
    SucceededFromComplete(fetched, 0);
    DispatchCount(cfg, domains, fetched, 0);
    var k :| 0 <= k < |idx| && idx[k] == i;
    DispatchAt(cfg, domains, fetched, 0, k);
    forall l | k < l < |log| ensures Slot(log[l]) != Slot(log[k]) {
      DispatchAt(cfg, domains, fetched, 0, l);
      var j := idx[l];
      SlotCollision(cfg, domains[j], fetched[j].value, domains[i], fetched[i].value);
    }
    StoredLast(before, log, k);
  }

  /** `foo.com` and `foo.org` share a file name: when both fetches succeed,
      the run leaves one object under that key, holding the later body,
      and every other object of the bucket as it was. */
  lemma SharedNameOverwrites(before: map<(Sink, string), Bytes>, bucket: string, a: string, b: string,
                             first: Bytes, second: Bytes)
    requires a == "foo.com" && b == "foo.org"
    ensures Stored(before, Dispatch(Config(true, bucket), [a, b], [Some(first), Some(second)]))
            == before[(S3(bucket), "public/favicons/foo-icon.ico") := second]
  {
    SharedFirstLabelExample(a, b);
    var cfg := Config(true, bucket);
    var key := "public/favicons/foo-icon.ico";
    assert ObjectKey(FileName(a)) == key && ObjectKey(FileName(b)) == key;
    var a1, a2 := Action(S3(bucket), key, first), Action(S3(bucket), key, second);
    assert Outcome(cfg, a, Some(first)) == [a1];
    assert Outcome(cfg, b, Some(second)) == [a2];
    DispatchAppend(cfg, [a], [Some(first)], [b], [Some(second)]);
    assert [a] + [b] == [a, b];
    assert [Some(first)] + [Some(second)] == [Some(first), Some(second)];
    var log := Dispatch(cfg, [a, b], [Some(first), Some(second)]);
    assert log == [a1, a2];
    assert log[..1] == [a1] && [a1][..0] == [];
    assert Stored(before, [a1]) == before[(S3(bucket), key) := first];
  }
}
