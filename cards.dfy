/** The `CryptoCards` component's own state: favourite coin NAMES, read from
    and written to the `fav` slot. Its search filter is `Feed.CardsShown`. */
module Cards {
  import opened Lists
  import opened Storage

  class CryptoCards {
    var favorites: seq<string>
    const storage: LocalStorage

    /** The initial state: the stored `fav` list, or empty when the slot is
        missing. */
    constructor Load(storage: LocalStorage)
      ensures this.storage == storage
      ensures favorites == LoadNames(storage.slots, CardFavoritesSlot)
    {
      this.storage := storage;
      favorites := LoadNames(storage.slots, CardFavoritesSlot);
    }

    /** `toggleFav`: appends an absent name or removes every occurrence of a
        present one, and writes the new list to `fav` only. */
    method ToggleFav(name: string)
      modifies this, storage
      ensures favorites == Toggle(old(favorites), name)
      ensures storage.slots == old(storage.slots)[CardFavoritesSlot := NameList(favorites)]
    {
      favorites := Toggle(favorites, name);
      storage.SetItem(CardFavoritesSlot, NameList(favorites));
    }
  }
}
