/** The field snapshot taken once per contest, before any participant is updated. */
module FieldSnapshot {
  import opened Records

  /** The multiset of (rating, volatility) pairs of the players srns, in the store as given. */
  ghost function FieldBag(store: map<Srn, Player>, srns: set<Srn>): multiset<(real, real)>
    requires srns <= store.Keys
    decreases srns
  {
    if srns == {} then multiset{}
    else
      var s :| s in srns;
      FieldBag(store, srns - {s}) + multiset{RatingVol(store[s])}
  }

  /** Any member of srns may be taken out first: the bag does not depend on an order. */
  lemma {:induction false} FieldBagRemove(store: map<Srn, Player>, srns: set<Srn>, s: Srn)
    requires srns <= store.Keys
    requires s in srns
    ensures FieldBag(store, srns) == FieldBag(store, srns - {s}) + multiset{RatingVol(store[s])}
    decreases srns
  {
    var t :| t in srns && FieldBag(store, srns) == FieldBag(store, srns - {t}) + multiset{RatingVol(store[t])};
    if t != s {
      FieldBagRemove(store, srns - {t}, s);
      FieldBagRemove(store, srns - {s}, t);
      assert srns - {t} - {s} == srns - {s} - {t};
    }
  }

  /** Zips the two lists the snapshot builder appends to. */
  function Zip(ratings: seq<real>, volatilities: seq<real>): (r: seq<(real, real)>)
    requires |ratings| == |volatilities|
  {
    seq(|ratings|, i requires 0 <= i < |ratings| => (ratings[i], volatilities[i]))
  }

  /** The ratings of a field, in field order. */
  function Ratings(field: seq<(real, real)>): seq<real>
  {
    seq(|field|, i requires 0 <= i < |field| => field[i].0)
  }

  /** The volatilities of a field, in field order. */
  function Volatilities(field: seq<(real, real)>): seq<real>
  {
    seq(|field|, i requires 0 <= i < |field| => field[i].1)
  }

  /** Zipping and unzipping are inverse. */
  lemma UnzipZip(ratings: seq<real>, volatilities: seq<real>)
    requires |ratings| == |volatilities|
    ensures Ratings(Zip(ratings, volatilities)) == ratings
    ensures Volatilities(Zip(ratings, volatilities)) == volatilities
  {
  }

  /** Appending one pair to each list appends that pair to the zip. */
  lemma ZipSnoc(ratings: seq<real>, volatilities: seq<real>, r: real, v: real)
    requires |ratings| == |volatilities|
    ensures Zip(ratings + [r], volatilities + [v]) == Zip(ratings, volatilities) + [(r, v)]
  {
    assert |Zip(ratings + [r], volatilities + [v])| == |Zip(ratings, volatilities) + [(r, v)]|;
  }

  /** One step of the snapshot loop: moving srn from the pending players to the end of the
      two lists keeps the bag of pairs seen plus the bag still pending the same. */
  lemma FieldStep(store: map<Srn, Player>, pending: set<Srn>, s: Srn, ratings: seq<real>, volatilities: seq<real>)
    requires pending <= store.Keys && s in pending
    requires |ratings| == |volatilities|
    ensures multiset(Zip(ratings + [store[s].rating], volatilities + [store[s].volatility]))
              + FieldBag(store, pending - {s})
         == multiset(Zip(ratings, volatilities)) + FieldBag(store, pending)
  {
    FieldBagRemove(store, pending, s);
    ZipSnoc(ratings, volatilities, store[s].rating, store[s].volatility);
  }
}
