/** What the quick-settings tiles have in common. */
module QsTile {
  /** `Tile.STATE_UNAVAILABLE`, `STATE_INACTIVE`, `STATE_ACTIVE`. */
  datatype TileMode = Unavailable | Inactive | Active
}
