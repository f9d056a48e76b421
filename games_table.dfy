/** The admin games table (src/components/admin/games-table.tsx): the delete handler and what the table shows. */
module GamesTable {
  import opened Wrappers
  import opened Types
  import opened DocStore

  datatype DeleteOutcome =
    | DeleteUnavailable  // "Error deleting game" toast; nothing is written
    | GameDeleted        // "Game deleted" toast, shown before the write settles

  /** `handleDelete`: removes `games/{gameId}` when the store is there, and nothing else. */
  method HandleDelete(store: Store?, gameId: string) returns (outcome: DeleteOutcome)
    modifies store
    ensures outcome == DeleteUnavailable <==> store == null
    ensures store != null ==> store.docs == old(store.docs) - {GamePath(gameId)}
  {
    if store == null {
      return DeleteUnavailable;
    }
    store.Delete(GamePath(gameId));
    outcome := GameDeleted;
  }

  /** The price cell: "Free" unless the price is positive. */
  datatype PriceLabel = Free | Rupees(paise: int)

  function PriceCell(price: int): (l: PriceLabel)
    ensures l == Free <==> price <= 0
    ensures l.Rupees? ==> l.paise == price && l.paise > 0
  {
    if price > 0 then Rupees(price) else Free
  }

  datatype GameRow = GameRow(id: string, title: string, platform: Platform, price: PriceLabel)

  datatype TableView = TableView(skeletonRows: nat, rows: seq<GameRow>, showEmptyState: bool)

  function Row(g: Game): GameRow
  {
    GameRow(g.id, g.title, g.platform, PriceCell(g.price))
  }

  /** The table body: five skeleton rows while loading, one row per loaded game, and the empty-state text. */
  function GamesTableView(games: Option<seq<Game>>, isLoading: bool): (v: TableView)
    ensures v.skeletonRows == (if isLoading then 5 else 0)
    ensures games.None? ==> v.rows == []
    ensures games.Some? ==> |v.rows| == |games.value|
    ensures games.Some? ==> forall i :: 0 <= i < |v.rows| ==>
      v.rows[i] == GameRow(games.value[i].id, games.value[i].title, games.value[i].platform, PriceCell(games.value[i].price))
    ensures v.showEmptyState <==> games == Some([]) && !isLoading
    ensures v.showEmptyState ==> v.rows == [] && v.skeletonRows == 0
  {
    var rows := if games.Some? then seq(|games.value|, i requires 0 <= i < |games.value| => Row(games.value[i])) else [];
    TableView(if isLoading then 5 else 0, rows, games.Some? && |games.value| == 0 && !isLoading)
  }
}
