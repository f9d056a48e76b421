/**
 * The mock catalogue (src/lib/data.ts): six sample games, the payment
 * configuration, two sample orders, and the lookup functions over them.
 */
module CatalogData {
  import opened Wrappers
  import opened Types

  /** The display text of one sample game: its descriptions and image addresses. */
  datatype GameText = GameText(shortDescription: string, description: string, imageUrl: string, bannerUrl: string)

  /**
   * The sample games, prices in paise. Their display text is the parameter
   * `text`, looked up by game id; the image hints of the data file are not
   * part of the `Game` type.
   */
  function Games(text: string -> GameText): (gs: seq<Game>)
    ensures |gs| == 6
    ensures forall i :: 0 <= i < |gs| ==> gs[i].platform == PC && gs[i].price >= 0
  {
    [SampleGame1(text), SampleGame2(text), SampleGame3(text), SampleGame4(text), SampleGame5(text), SampleGame6(text)]
  }

  function SampleGame1(text: string -> GameText): Game
  {
    var t := text("1");
    Game(
      "1", "cybernetic-horizons", "Cybernetic Horizons", PC,
      t.shortDescription, t.description,
      5999, t.imageUrl, t.bannerUrl,
      ["RPG", "Open World", "Sci-Fi"], None, None)
  }

  function SampleGame2(text: string -> GameText): Game
  {
    var t := text("2");
    Game(
      "2", "elden-ring", "Elden Ring", PC,
      t.shortDescription, t.description,
      6999, t.imageUrl, t.bannerUrl,
      ["Action RPG", "Fantasy", "Souls-like"], None, None)
  }

  function SampleGame3(text: string -> GameText): Game
  {
    var t := text("3");
    Game(
      "3", "starfield", "Starfield", PC,
      t.shortDescription, t.description,
      6999, t.imageUrl, t.bannerUrl,
      ["RPG", "Sci-Fi", "Space"], None, None)
  }

  function SampleGame4(text: string -> GameText): Game
  {
    var t := text("4");
    Game(
      "4", "valorant", "Valorant", PC,
      t.shortDescription, t.description,
      0, t.imageUrl, t.bannerUrl,
      ["Tactical Shooter", "Free to Play", "Competitive"], None, None)
  }

  function SampleGame5(text: string -> GameText): Game
  {
    var t := text("5");
    Game(
      "5", "the-witcher-3", "The Witcher 3: Wild Hunt", PC,
      t.shortDescription, t.description,
      3999, t.imageUrl, t.bannerUrl,
      ["Action RPG", "Open World", "Fantasy"], None, None)
  }

  function SampleGame6(text: string -> GameText): Game
  {
    var t := text("6");
    Game(
      "6", "red-dead-redemption-2", "Red Dead Redemption 2", PC,
      t.shortDescription, t.description,
      4999, t.imageUrl, t.bannerUrl,
      ["Action-Adventure", "Open World", "Western"], None, None)
  }

  function SamplePaymentConfig(): PaymentConfig
  {
    PaymentConfig("https://picsum.photos/seed/qrcode/300/300")
  }

  /** 2023-10-26T10:00:00Z in milliseconds since the epoch. */
  const FirstOrderTime: int := 1698314400000

  /** The sample orders; the second is stamped with the moment the data is loaded. */
  function SampleOrders(loadTime: int): seq<Order>
  {
    [
      Order("ord-1", "user-1", "user@example.com",
            [OrderItem("1", "Cybernetic Horizons", 5999, 1), OrderItem("2", "Elden Ring", 6999, 1)],
            12998, Delivered, FirstOrderTime),
      Order("ord-2", "user-1", "user@example.com",
            [OrderItem("3", "Starfield", 6999, 1)],
            6999, Pending, loadTime)
    ]
  }

  /** Both sample orders record the sum of their lines as their total. */
  lemma SampleOrdersConsistent(loadTime: int)
    ensures forall i :: 0 <= i < |SampleOrders(loadTime)| ==> ConsistentTotal(SampleOrders(loadTime)[i])
  {
    var os := SampleOrders(loadTime);
    assert ItemsTotal(os[0].items[1..]) == 6999;
    assert ItemsTotal(os[1].items[1..]) == 0;
  }

  /** `getGames`: the six sample games, all on PC, none with a negative price, no two with one slug. */
  function GetGames(text: string -> GameText): (gs: seq<Game>)
    ensures |gs| == 6 && DistinctSlugs(gs)
    ensures forall i :: 0 <= i < |gs| ==> gs[i].platform == PC && gs[i].price >= 0
  {
    SampleSlugsDistinct(text);
    Games(text)
  }

  /** `getPaymentConfig`: a configuration with a QR code address to show. */
  function GetPaymentConfig(): (c: PaymentConfig)
    ensures c.qrCodeUrl != ""
  {
    SamplePaymentConfig()
  }

  /** `getAllOrders`: one delivered and one pending order, both recording the sum of their lines. */
  function GetAllOrders(loadTime: int): (os: seq<Order>)
    ensures |os| == 2
    ensures forall i :: 0 <= i < |os| ==> ConsistentTotal(os[i]) && os[i].userId == "user-1"
    ensures os[0].status == Delivered && os[1].status == Pending
    ensures os[0].createdAt == FirstOrderTime && os[1].createdAt == loadTime
  {
    SampleOrdersConsistent(loadTime);
    SampleOrders(loadTime)
  }

  /** `getAdminEmails`: a fixed list that nothing in the access rules consults. */
  function GetAdminEmails(): seq<string>
  {
    ["admin@gamerverse.com"]
  }

  /** `games.find(g => g.slug === slug)`: the first game with that slug, if any. */
  function FindBySlug(games: seq<Game>, slug: string): (r: Option<Game>)
    ensures r.None? <==> forall i :: 0 <= i < |games| ==> games[i].slug != slug
    ensures r.Some? ==>
      exists i :: 0 <= i < |games| && games[i] == r.value && r.value.slug == slug
                  && forall j :: 0 <= j < i ==> games[j].slug != slug
    decreases |games|
  {
    if |games| == 0 then None
    else if games[0].slug == slug then Some(games[0])
    else
      var rest := FindBySlug(games[1..], slug);
      assert rest.Some? ==>
        exists i :: 1 <= i < |games| && games[i] == rest.value && forall j :: 0 <= j < i ==> games[j].slug != slug
      by {
        if rest.Some? {
          var k :| 0 <= k < |games[1..]| && games[1..][k] == rest.value && rest.value.slug == slug
                   && forall j :: 0 <= j < k ==> games[1..][j].slug != slug;
          assert games[k + 1] == rest.value;
          assert forall j :: 0 <= j < k + 1 ==> games[j].slug != slug by {
            forall j | 0 <= j < k + 1 ensures games[j].slug != slug {
              if j > 0 {
                assert games[j] == games[1..][j - 1];
              }
            }
          }
        }
      }
      rest
  }

  /** `getGameBySlug`: the sample game with that slug, or `None` when no sample game has it. */
  function GetGameBySlug(text: string -> GameText, slug: string): (r: Option<Game>)
    ensures r.None? <==> forall i :: 0 <= i < |Games(text)| ==> Games(text)[i].slug != slug
    ensures r.Some? ==> r.value in Games(text) && r.value.slug == slug
  {
    FindBySlug(Games(text), slug)
  }

  predicate DistinctSlugs(games: seq<Game>)
  {
    forall i, j :: 0 <= i < j < |games| ==> games[i].slug != games[j].slug
  }

  /** With distinct slugs, every game is found by its own slug. */
  lemma {:induction false} FindOwnSlug(games: seq<Game>, i: nat)
    requires DistinctSlugs(games)
    requires i < |games|
    ensures FindBySlug(games, games[i].slug) == Some(games[i])
    decreases i
  {
    if i > 0 {
      assert games[0].slug != games[i].slug;
      assert DistinctSlugs(games[1..]) by {
        forall a, b | 0 <= a < b < |games[1..]| ensures games[1..][a].slug != games[1..][b].slug {
          assert games[1..][a] == games[a + 1] && games[1..][b] == games[b + 1];
        }
      }
      FindOwnSlug(games[1..], i - 1);
      assert games[1..][i - 1] == games[i];
    }
  }

  /** When two games share a slug, the lookup returns the earlier one: nothing keeps slugs unique. */
  lemma DuplicateSlugShadows(games: seq<Game>, i: nat, j: nat)
    requires i < j < |games|
    requires games[i].slug == games[j].slug
    requires forall k :: 0 <= k < i ==> games[k].slug != games[i].slug
    ensures FindBySlug(games, games[j].slug) == Some(games[i])
  {
    var r := FindBySlug(games, games[j].slug);
    var k :| 0 <= k < |games| && games[k] == r.value && r.value.slug == games[j].slug
             && forall m :: 0 <= m < k ==> games[m].slug != games[j].slug;
    assert !(k < i) && !(i < k);
  }

  /** The sample slugs are pairwise distinct. */
  lemma SampleSlugsDistinct(text: string -> GameText)
    ensures DistinctSlugs(Games(text))
  {
    var gs := Games(text);
    forall a, b | 0 <= a < b < |gs| ensures gs[a].slug != gs[b].slug {
      assert gs[a].slug[..2] != gs[b].slug[..2] || gs[a].slug != gs[b].slug;
    }
  }

  /** Every sample game is reachable through the detail page of its own slug. */
  lemma SampleSlugsFindTheirGame(text: string -> GameText, i: nat)
    requires i < |Games(text)|
    ensures GetGameBySlug(text, Games(text)[i].slug) == Some(Games(text)[i])
  {
    SampleSlugsDistinct(text);
    FindOwnSlug(Games(text), i);
  }

  /** `orders.filter(o => o.userId === userId)`, order kept. */
  function FilterByUser(orders: seq<Order>, userId: string): (r: seq<Order>)
    ensures |r| <= |orders|
    ensures forall i :: 0 <= i < |r| ==> r[i].userId == userId
    ensures forall o :: o in r <==> o in orders && o.userId == userId
    decreases |orders|
  {
    if |orders| == 0 then []
    else (if orders[0].userId == userId then [orders[0]] else []) + FilterByUser(orders[1..], userId)
  }

  /** The filter works order by order: it keeps the orders' sequence and repetitions. */
  lemma {:induction false} FilterByUserAppend(a: seq<Order>, b: seq<Order>, userId: string)
    ensures FilterByUser(a + b, userId) == FilterByUser(a, userId) + FilterByUser(b, userId)
    decreases |a|
  {
    if |a| == 0 {
      assert a + b == b;
    } else {
      var ab := a + b;
      assert ab[0] == a[0] && ab[1..] == a[1..] + b;
      var head := if a[0].userId == userId then [a[0]] else [];
      assert FilterByUser(ab, userId) == head + FilterByUser(a[1..] + b, userId);
      assert FilterByUser(a, userId) == head + FilterByUser(a[1..], userId);
      FilterByUserAppend(a[1..], b, userId);
      ConcatAssoc(head, FilterByUser(a[1..], userId), FilterByUser(b, userId));
    }
  }

  lemma ConcatAssoc<T>(x: seq<T>, y: seq<T>, z: seq<T>)
    ensures x + (y + z) == (x + y) + z
  {
  }

  /** `getOrdersForUser`: exactly the sample orders placed by `userId`. */
  function GetOrdersForUser(loadTime: int, userId: string): (r: seq<Order>)
    ensures forall i :: 0 <= i < |r| ==> r[i].userId == userId
    ensures forall o :: o in r <==> o in SampleOrders(loadTime) && o.userId == userId
  {
    FilterByUser(SampleOrders(loadTime), userId)
  }

  /** Only "user-1" has sample orders, and it has both. */
  lemma SampleOrdersByUser(loadTime: int, userId: string)
    ensures userId == "user-1" ==> GetOrdersForUser(loadTime, userId) == SampleOrders(loadTime)
    ensures userId != "user-1" ==> GetOrdersForUser(loadTime, userId) == []
  {
    var os := SampleOrders(loadTime);
    assert os[1..][1..] == [];
    assert FilterByUser(os[1..], userId) == (if userId == "user-1" then [os[1]] else []) + FilterByUser([], userId);
  }

  /** An order in which `sort` with a random comparator may leave the games: a permutation of the indices. */
  predicate IsShuffle(order: seq<int>, n: nat)
  {
    && |order| == n
    && (forall i :: 0 <= i < n ==> 0 <= order[i] < n)
    && (forall i, j :: 0 <= i < j < n ==> order[i] != order[j])
    && (forall k :: 0 <= k < n ==> k in order)
  }

  /** The end index `slice(0, count)` uses on a list of length n. */
  function SliceEnd(n: nat, count: int): (e: nat)
    ensures e <= n
    ensures count >= 0 ==> e == Min(count, n)
    ensures count < 0 ==> e == Max(n + count, 0)
  {
    if count >= 0 then (if count < n then count else n)
    else if n + count > 0 then n + count else 0
  }

  /** `[...games].sort(random).slice(0, count)`, the random order given as `order`. */
  function Featured(games: seq<Game>, order: seq<int>, count: int): (r: seq<Game>)
    requires IsShuffle(order, |games|)
    ensures |r| == SliceEnd(|games|, count)
    ensures forall i :: 0 <= i < |r| ==> r[i] == games[order[i]]
    ensures forall g :: g in r ==> g in games
    ensures SliceEnd(|games|, count) == |games| ==> forall g :: g in games ==> g in r
  {
    var shuffled := Shuffled(games, order);
    ShuffledCoversAll(games, order);
    shuffled[..SliceEnd(|games|, count)]
  }

  function Shuffled(games: seq<Game>, order: seq<int>): (r: seq<Game>)
    requires IsShuffle(order, |games|)
    ensures |r| == |games|
  {
    seq(|games|, i requires 0 <= i < |games| => games[order[i]])
  }

  /** Every game lands somewhere in the shuffled list. */
  lemma ShuffledCoversAll(games: seq<Game>, order: seq<int>)
    requires IsShuffle(order, |games|)
    ensures forall g :: g in games ==> g in Shuffled(games, order)
  {
    var r := Shuffled(games, order);
    forall g | g in games ensures g in r {
      var k :| 0 <= k < |games| && games[k] == g;
      assert k in order;
      var i :| 0 <= i < |order| && order[i] == k;
      assert r[i] == g;
    }
  }

  /** No game is picked twice: over a catalogue with distinct slugs, any two picks have different slugs. */
  lemma {:induction false} FeaturedDistinct(games: seq<Game>, order: seq<int>, count: int, i: nat, j: nat)
    requires IsShuffle(order, |games|)
    requires DistinctSlugs(games)
    requires i < j < |Featured(games, order, count)|
    ensures Featured(games, order, count)[i].slug != Featured(games, order, count)[j].slug
  {
    var f := Featured(games, order, count);
    assert f[i] == games[order[i]] && f[j] == games[order[j]];
    assert order[i] != order[j];
    if order[i] < order[j] {
      assert games[order[i]].slug != games[order[j]].slug;
    } else {
      assert games[order[j]].slug != games[order[i]].slug;
    }
  }

  /** `getFeaturedGames(count = 3)` over the sample catalogue: `count` of the six games (all six at most), in shuffled order. */
  function GetFeaturedGames(text: string -> GameText, order: seq<int>, count: int := 3): (r: seq<Game>)
    requires IsShuffle(order, |Games(text)|)
    ensures |r| == SliceEnd(6, count)
    ensures forall i :: 0 <= i < |r| ==> r[i] == Games(text)[order[i]]
    ensures forall g :: g in r ==> g in Games(text)
  {
    Featured(Games(text), order, count)
  }
}
