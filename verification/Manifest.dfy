/** What a stored Helm release may contain before a server is deleted. */
module Manifest {
  import opened Options

  datatype Kind = Deployment | Service | ConfigMap | Secret | Claim | OtherKind(text: string)
  datatype ApiVersion = AppsV1 | CoreV1 | OtherVersion(text: string)
  datatype Policy = NoPolicy | KeepPolicy | OtherPolicy(text: string)

  datatype Document =
    | Unreadable
    | Blank
    | Document(kind: Kind, version: ApiVersion, ns: string, name: string, hook: bool, policy: Policy,
               claims: seq<string>, secrets: seq<string>)

  datatype Item = Item(kind: Kind, name: string, policy: Policy, claims: seq<string>, secrets: seq<string>)

  predicate Versioned(kind: Kind, version: ApiVersion) {
    match kind
    case Deployment => version == AppsV1
    case OtherKind(_) => false
    case _ => version == CoreV1
  }

  /** A document an uninstall may handle in the release's namespace. */
  predicate Supported(d: Document, ns: string)
    requires d.Document?
  {
    && Versioned(d.kind, d.version) && d.name != "" && !d.hook
    && (d.ns == "" || d.ns == ns)
    && d.policy == if d.kind == Claim then KeepPolicy else NoPolicy
  }

  predicate AllSupported(docs: seq<Document>, ns: string) {
    forall i :: 0 <= i < |docs| ==> !docs[i].Unreadable? && (docs[i].Document? ==> Supported(docs[i], ns))
  }

  predicate Distinct(docs: seq<Document>) {
    forall i, j :: 0 <= i < j < |docs| && docs[i].Document? && docs[j].Document? ==>
      (docs[i].kind, docs[i].name) != (docs[j].kind, docs[j].name)
  }

  predicate Sound(docs: seq<Document>, ns: string) { AllSupported(docs, ns) && Distinct(docs) }

  predicate Acceptable(docs: seq<Document>, ns: string, hooks: nat) {
    && hooks == 0 && Sound(docs, ns)
    && exists i :: 0 <= i < |docs| && docs[i].Document?
  }

  /** Which releases are accepted, document by document. */
  lemma AcceptableIs(docs: seq<Document>, ns: string, hooks: nat)
    ensures Acceptable(docs, ns, hooks) <==>
      && hooks == 0
      && (exists i :: 0 <= i < |docs| && docs[i].Document?)
      && (forall i :: 0 <= i < |docs| ==> docs[i] != Unreadable)
      && (forall i :: 0 <= i < |docs| && docs[i].Document? ==>
            && docs[i].name != "" && !docs[i].hook && docs[i].ns in ["", ns]
            && (if docs[i].kind == Deployment then docs[i].version == AppsV1
                else docs[i].kind in [Service, ConfigMap, Secret, Claim] && docs[i].version == CoreV1)
            && (if docs[i].kind == Claim then docs[i].policy == KeepPolicy else docs[i].policy == NoPolicy))
      && (forall i, j :: 0 <= i < j < |docs| && docs[i].Document? && docs[j].Document? ==>
            docs[i].kind != docs[j].kind || docs[i].name != docs[j].name)
  {
  }

  function Items(docs: seq<Document>): seq<Item> {
    if docs == [] then []
    else
      var d := docs[|docs|-1];
      Items(docs[..|docs|-1]) +
      if d.Document? then [Item(d.kind, d.name, d.policy, d.claims, d.secrets)] else []
  }

  lemma {:induction false} ItemsComeFromDocuments(docs: seq<Document>)
    ensures forall it :: it in Items(docs) <==>
      (exists i :: 0 <= i < |docs| && docs[i].Document? &&
        it == Item(docs[i].kind, docs[i].name, docs[i].policy, docs[i].claims, docs[i].secrets))
    ensures Items(docs) == [] <==> forall i :: 0 <= i < |docs| ==> !docs[i].Document?
  {
    if docs != [] {
      var init := docs[..|docs|-1];
      ItemsComeFromDocuments(init);
      assert forall i :: 0 <= i < |init| ==> docs[i] == init[i];
    }
  }

  /** In an accepted release exactly the claims carry the keep policy. */
  lemma ExactlyClaimsAreKept(docs: seq<Document>, ns: string, hooks: nat)
    requires Acceptable(docs, ns, hooks)
    ensures forall it :: it in Items(docs) ==>
      it.name != "" && !it.kind.OtherKind? && it.policy == if it.kind == Claim then KeepPolicy else NoPolicy
    ensures Items(docs) != []
  {
    ItemsComeFromDocuments(docs);
  }

  function Keys(docs: seq<Document>): set<(Kind, string)> {
    set i | 0 <= i < |docs| && docs[i].Document? :: (docs[i].kind, docs[i].name)
  }

  lemma KeysGrow(docs: seq<Document>, d: Document)
    ensures Keys(docs + [d]) == Keys(docs) + if d.Document? then {(d.kind, d.name)} else {}
  {
    var all := docs + [d];
    assert all[|docs|] == d && forall i :: 0 <= i < |docs| ==> all[i] == docs[i];
    forall k | k in Keys(docs) ensures k in Keys(all) {
      var i :| 0 <= i < |docs| && docs[i].Document? && k == (docs[i].kind, docs[i].name);
      assert all[i].Document?;
    }
  }

  lemma SoundGrows(docs: seq<Document>, d: Document, ns: string)
    ensures Sound(docs + [d], ns) <==>
      (Sound(docs, ns) && !d.Unreadable? &&
        (d.Document? ==> Supported(d, ns) && (d.kind, d.name) !in Keys(docs)))
  {
    var all := docs + [d];
    assert all[|docs|] == d && forall i :: 0 <= i < |docs| ==> all[i] == docs[i];
    if Sound(all, ns) {
      assert forall i :: 0 <= i < |docs| ==> !docs[i].Unreadable? && (docs[i].Document? ==> Supported(docs[i], ns)) by {
        assert forall i :: 0 <= i < |docs| ==> docs[i] == all[i];
      }
      forall i, j | 0 <= i < j < |docs| && docs[i].Document? && docs[j].Document?
        ensures (docs[i].kind, docs[i].name) != (docs[j].kind, docs[j].name)
      {
        assert docs[i] == all[i] && docs[j] == all[j];
      }
    }
  }

  lemma NothingIsSound(ns: string)
    ensures Sound([], ns) && Keys([]) == {}
  {
  }

  lemma {:induction false} PartsAreSound(docs: seq<Document>, n: nat, ns: string)
    requires n <= |docs| && Sound(docs, ns)
    ensures Sound(docs[..n], ns)
    decreases |docs| - n
  {
    if n < |docs| {
      PartsAreSound(docs, n + 1, ns);
      assert docs[..n+1] == docs[..n] + [docs[n]];
      SoundGrows(docs[..n], docs[n], ns);
    } else {
      assert docs[..n] == docs;
    }
  }

  /** `manifestResources`: accepts exactly the releases an uninstall can be trusted with. */
  method ManifestResources(docs: seq<Document>, ns: string, hooks: nat) returns (items: Option<seq<Item>>)
    ensures items.Some? <==> Acceptable(docs, ns, hooks)
    ensures items.Some? ==> items.value == Items(docs)
  {
    hide Sound, Keys;
    if hooks != 0 { return None; }
    var found: seq<Item>, seen: set<(Kind, string)> := [], {};
    NothingIsSound(ns);
    assert docs[..0] == [];
    for n := 0 to |docs|
      invariant Sound(docs[..n], ns) && seen == Keys(docs[..n])
      invariant found == Items(docs[..n])
    {
      var d := docs[n];
      assert docs[..n+1] == docs[..n] + [d] && docs[..n+1][..n] == docs[..n];
      KeysGrow(docs[..n], d);
      SoundGrows(docs[..n], d, ns);
      if Sound(docs, ns) { PartsAreSound(docs, n + 1, ns); }
      if d.Unreadable? { return None; }
      if d.Blank? { continue; }
      if !Versioned(d.kind, d.version) || d.name == "" || d.hook { return None; }
      if (d.ns != "" && d.ns != ns) || (d.kind, d.name) in seen { return None; }
      if d.kind == Claim && d.policy != KeepPolicy { return None; }
      if d.kind != Claim && d.policy != NoPolicy { return None; }
      seen := seen + {(d.kind, d.name)};
      found := found + [Item(d.kind, d.name, d.policy, d.claims, d.secrets)];
    }
    assert docs[..|docs|] == docs;
    ItemsComeFromDocuments(docs);
    if found == [] { return None; }
    return Some(found);
  }
}
