/** The curated photos of each catalog location, with a default set for
    any id the table does not list. Every URL is an Unsplash photo at
    800x600, cropped; only the photo id differs. */
module ImageMapping {
  datatype LocationImages = Images(main: string, gallery: seq<string>)

  const PhotoHead: string := "https://images.unsplash.com/photo-"
  const PhotoSize: string := "?w=800&h=600&fit=crop"

  /** The URL of one Unsplash photo. */
  function Photo(photoId: string): string {
    PhotoHead + photoId + PhotoSize
  }

  /** Parks. */
  const ParksImages: map<int, LocationImages> := map[
    1 := Images(Photo("1597694434571-7a6b7b7e5f4f"),
      [Photo("1597694434571-7a6b7b7e5f4f"), Photo("1578662996442-48f60103fc96"), Photo("1559827260-dc66d52bef19")]),
    12 := Images(Photo("1506905925346-21bda4d32df4"),
      [Photo("1506905925346-21bda4d32df4"), Photo("1441974231531-c6227db76b6e"), Photo("1473448912268-2022ce9509d8")]),
    15 := Images(Photo("1587974928442-77dc3e0dba72"),
      [Photo("1587974928442-77dc3e0dba72"), Photo("1551269901-5c5e14c25df7"), Photo("1598134493097-d2796bf0340d")]),
    18 := Images(Photo("1511593358241-7eea1f3c84e5"),
      [Photo("1511593358241-7eea1f3c84e5"), Photo("1542273917363-3b1817f69a2d"), Photo("1518173946687-a4c8892bbd9f")]),
    20 := Images(Photo("1572023439658-f7edc9f5b02e"),
      [Photo("1572023439658-f7edc9f5b02e"), Photo("1534447677768-be436bb09401"), Photo("1604869515882-4d10fa4b0492")]),
    37 := Images(Photo("1544551763-46a013bb70d5"),
      [Photo("1544551763-46a013bb70d5"), Photo("1548946526-f69e2424cf45"), Photo("1582407947304-fd86f028f716")]),
    47 := Images(Photo("1506905925346-21bda4d32df4"),
      [Photo("1506905925346-21bda4d32df4"), Photo("1439066615861-d1af74d74000"), Photo("1500964757637-c85e8a162699")])
  ]

  /** Museums. */
  const MuseumsImages: map<int, LocationImages> := map[
    2 := Images(Photo("1565191999001-551c187427bb"),
      [Photo("1565191999001-551c187427bb"), Photo("1581093588401-fbb62a02f120"), Photo("1567696911980-2eed69a46042")]),
    7 := Images(Photo("1559827260-dc66d52bef19"),
      [Photo("1559827260-dc66d52bef19"), Photo("1544552866-d3ed42536cfd"), Photo("1535591273668-578e31182c4f")]),
    13 := Images(Photo("1565191999001-551c187427bb"),
      [Photo("1565191999001-551c187427bb"), Photo("1578662996442-48f60103fc96"), Photo("1581093588401-fbb62a02f120")]),
    25 := Images(Photo("1550745165-9bc0b252726f"),
      [Photo("1550745165-9bc0b252726f"), Photo("1486572788966-cfd3df1f5b42"), Photo("1511512578047-dfb367046420")]),
    29 := Images(Photo("1559827260-dc66d52bef19"),
      [Photo("1559827260-dc66d52bef19"), Photo("1544552866-d3ed42536cfd"), Photo("1560275619-4662e36fa65c")]),
    32 := Images(Photo("1564399579883-451a5d44ec08"),
      [Photo("1564399579883-451a5d44ec08"), Photo("1582555172866-f73bb12a2ab3"), Photo("1580041065738-e72023775cdc")]),
    41 := Images(Photo("1564399579883-451a5d44ec08"),
      [Photo("1564399579883-451a5d44ec08"), Photo("1577083300990-f0796012a626"), Photo("1561214115-f2f134cc4912")]),
    44 := Images(Photo("1577083300990-f0796012a626"),
      [Photo("1577083300990-f0796012a626"), Photo("1580041065738-e72023775cdc"), Photo("1564399579883-451a5d44ec08")])
  ]

  /** Outdoors & Gardens. */
  const OutdoorsGardensImages: map<int, LocationImages> := map[
    3 := Images(Photo("1558618666-fcd25c85cd64"),
      [Photo("1558618666-fcd25c85cd64"), Photo("1600077106724-946750eeaf3c"), Photo("1591857177580-dc82b9ac4e1e")]),
    8 := Images(Photo("1564349683136-77e08dba1ef7"),
      [Photo("1564349683136-77e08dba1ef7"), Photo("1551817958-20c93c9f3fdbb"), Photo("1540206395-68808572332f")]),
    10 := Images(Photo("1511593358241-7eea1f3c84e5"),
      [Photo("1511593358241-7eea1f3c84e5"), Photo("1542273917363-3b1817f69a2d"), Photo("1441974231531-c6227db76b6e")]),
    11 := Images(Photo("1490750967868-88aa4486c946"),
      [Photo("1490750967868-88aa4486c946"), Photo("1585320806297-9794b3e4eeae"), Photo("1563789031959-4c02bcb41319")]),
    14 := Images(Photo("1480714378408-67cf0d13bc1b"),
      [Photo("1480714378408-67cf0d13bc1b"), Photo("1519751138087-5bf79df62d5b"), Photo("1477959858617-67f85cf4f1df")]),
    19 := Images(Photo("1459749411175-04bf5292ceea"),
      [Photo("1459749411175-04bf5292ceea"), Photo("1514525253161-7a46d19cd819"), Photo("1506157786151-b8491531f063")]),
    21 := Images(Photo("1600077106724-946750eeaf3c"),
      [Photo("1600077106724-946750eeaf3c"), Photo("1558618666-fcd25c85cd64"), Photo("1591857177580-dc82b9ac4e1e")]),
    22 := Images(Photo("1585320806297-9794b3e4eeae"),
      [Photo("1585320806297-9794b3e4eeae"), Photo("1490750967868-88aa4486c946"), Photo("1563789031959-4c02bcb41319")]),
    26 := Images(Photo("1511593358241-7eea1f3c84e5"),
      [Photo("1511593358241-7eea1f3c84e5"), Photo("1441974231531-c6227db76b6e"), Photo("1473448912268-2022ce9509d8")]),
    33 := Images(Photo("1519751138087-5bf79df62d5b"),
      [Photo("1519751138087-5bf79df62d5b"), Photo("1480714378408-67cf0d13bc1b"), Photo("1441984904996-e0b6ba687e04")]),
    38 := Images(Photo("1546971587-02375cbbdffb"),
      [Photo("1546971587-02375cbbdffb"), Photo("1564349683136-77e08dba1ef7"), Photo("1516426122078-c23e76319801")]),
    48 := Images(Photo("1497206365907-f5e630693df0"),
      [Photo("1497206365907-f5e630693df0"), Photo("1441974231531-c6227db76b6e"), Photo("1473448912268-2022ce9509d8")]),
    49 := Images(Photo("1564349683136-77e08dba1ef7"),
      [Photo("1564349683136-77e08dba1ef7"), Photo("1551817958-20c93c9f3fdbb"), Photo("1546429964-b965a7e4569f")]),
    50 := Images(Photo("1507525428034-b723cf961d3e"),
      [Photo("1507525428034-b723cf961d3e"), Photo("1506905925346-21bda4d32df4"), Photo("1473116763249-2faaef81ccda")])
  ]

  /** Playgrounds & Indoor. */
  const PlaygroundsIndoorImages: map<int, LocationImages> := map[
    4 := Images(Photo("1551269901-5c5e14c25df7"),
      [Photo("1551269901-5c5e14c25df7"), Photo("1587974928442-77dc3e0dba72"), Photo("1598134493097-d2796bf0340d")]),
    5 := Images(Photo("1513542789411-b6a5d4f31634"),
      [Photo("1513542789411-b6a5d4f31634"), Photo("1503454537195-1dcabb73ffb9"), Photo("1452421822248-d4c2b47f0c81")]),
    6 := Images(Photo("1558618666-fcd25c85cd64"),
      [Photo("1558618666-fcd25c85cd64"), Photo("1551269901-5c5e14c25df7"), Photo("1587974928442-77dc3e0dba72")]),
    9 := Images(Photo("1503454537195-1dcabb73ffb9"),
      [Photo("1503454537195-1dcabb73ffb9"), Photo("1513542789411-b6a5d4f31634"), Photo("1452421822248-d4c2b47f0c81")]),
    16 := Images(Photo("1598134493097-d2796bf0340d"),
      [Photo("1598134493097-d2796bf0340d"), Photo("1551269901-5c5e14c25df7"), Photo("1587974928442-77dc3e0dba72")]),
    28 := Images(Photo("1587654780291-39c9404d746b"),
      [Photo("1587654780291-39c9404d746b"), Photo("1513542789411-b6a5d4f31634"), Photo("1452421822248-d4c2b47f0c81")]),
    31 := Images(Photo("1551269901-5c5e14c25df7"),
      [Photo("1551269901-5c5e14c25df7"), Photo("1587974928442-77dc3e0dba72"), Photo("1598134493097-d2796bf0340d")]),
    34 := Images(Photo("1587974928442-77dc3e0dba72"),
      [Photo("1587974928442-77dc3e0dba72"), Photo("1551269901-5c5e14c25df7"), Photo("1598134493097-d2796bf0340d")]),
    43 := Images(Photo("1587829741301-dc798b83add3"),
      [Photo("1587829741301-dc798b83add3"), Photo("1513542789411-b6a5d4f31634"), Photo("1574629810360-7efbbe195018")]),
    45 := Images(Photo("1580820267115-bfd8bacab3bf"),
      [Photo("1580820267115-bfd8bacab3bf"), Photo("1511593358241-7eea1f3c84e5"), Photo("1574629810360-7efbbe195018")])
  ]

  /** Waterparks. */
  const WaterparksImages: map<int, LocationImages> := map[
    30 := Images(Photo("1561212044-bac5ef688a07"),
      [Photo("1561212044-bac5ef688a07"), Photo("1527933053326-89d1746b76b9"), Photo("1476514525535-07fb3b4ae5f1")]),
    36 := Images(Photo("1527933053326-89d1746b76b9"),
      [Photo("1527933053326-89d1746b76b9"), Photo("1561212044-bac5ef688a07"), Photo("1476514525535-07fb3b4ae5f1")]),
    39 := Images(Photo("1507525428034-b723cf961d3e"),
      [Photo("1507525428034-b723cf961d3e"), Photo("1476514525535-07fb3b4ae5f1"), Photo("1473116763249-2faaef81ccda")]),
    40 := Images(Photo("1506905925346-21bda4d32df4"),
      [Photo("1506905925346-21bda4d32df4"), Photo("1507525428034-b723cf961d3e"), Photo("1473116763249-2faaef81ccda")])
  ]

  /** Attractions. */
  const AttractionsImages: map<int, LocationImages> := map[
    17 := Images(Photo("1579621970563-ebec7560ff3e"),
      [Photo("1579621970563-ebec7560ff3e"), Photo("1580519542036-c47de6196ba5"), Photo("1633158829585-23ba8f7c8caf")]),
    23 := Images(Photo("1506905925346-21bda4d32df4"),
      [Photo("1506905925346-21bda4d32df4"), Photo("1441974231531-c6227db76b6e"), Photo("1473448912268-2022ce9509d8")]),
    24 := Images(Photo("1565191999001-551c187427bb"),
      [Photo("1565191999001-551c187427bb"), Photo("1578662996442-48f60103fc96"), Photo("1581093588401-fbb62a02f120")]),
    27 := Images(Photo("1474487548417-781cb71495f3"),
      [Photo("1474487548417-781cb71495f3"), Photo("1544620347-c4fd4a3d5957"), Photo("1539635278303-d4002c07eae3")]),
    35 := Images(Photo("1500595046743-cd271d694d30"),
      [Photo("1500595046743-cd271d694d30"), Photo("1516467508483-a7212febe31a"), Photo("1560114928-40f1f1eb26a0")]),
    42 := Images(Photo("1565191999001-551c187427bb"),
      [Photo("1565191999001-551c187427bb"), Photo("1578662996442-48f60103fc96"), Photo("1581093588401-fbb62a02f120")]),
    46 := Images(Photo("1566577739112-5180d4bf9390"),
      [Photo("1566577739112-5180d4bf9390"), Photo("1627241561457-c4d85d3fef3b"), Photo("1624526267942-ab0ff8a3e972")])
  ]

  /** `locationImageMap`: the groups above, which share no id. */
  const LocationImageMap: map<int, LocationImages> :=
    ParksImages + MuseumsImages + OutdoorsGardensImages + PlaygroundsIndoorImages + WaterparksImages + AttractionsImages

  /** `defaultImages`. */
  const DefaultImages: LocationImages :=
    Images(Photo("1578662996442-48f60103fc96"),
      [Photo("1578662996442-48f60103fc96"), Photo("1581093588401-fbb62a02f120"), Photo("1567696911980-2eed69a46042")])

  /** Every set of images has a main photo and a gallery of three that
      opens with it. */
  predicate WellFormed(im: LocationImages) {
    |im.gallery| == 3 && im.gallery[0] == im.main
  }

  /** Each group lists its ids, each with a well-formed set. */
  lemma ParksShape()
    ensures forall id :: id in ParksImages <==> id == 1 || id == 12 || id == 15 || id == 18 || id == 20 || id == 37 || id == 47
    ensures forall id :: id in ParksImages ==> WellFormed(ParksImages[id])
  {
  }

  lemma MuseumsShape()
    ensures forall id :: id in MuseumsImages <==> id == 2 || id == 7 || id == 13 || id == 25 || id == 29 || id == 32 || id == 41 || id == 44
    ensures forall id :: id in MuseumsImages ==> WellFormed(MuseumsImages[id])
  {
  }

  lemma OutdoorsGardensShape()
    ensures forall id :: id in OutdoorsGardensImages <==> id == 3 || id == 8 || id == 10 || id == 11 || id == 14 || id == 19 || id == 21 || id == 22 || id == 26 || id == 33 || id == 38 || id == 48 || id == 49 || id == 50
    ensures forall id :: id in OutdoorsGardensImages ==> WellFormed(OutdoorsGardensImages[id])
  {
  }

  lemma PlaygroundsIndoorShape()
    ensures forall id :: id in PlaygroundsIndoorImages <==> id == 4 || id == 5 || id == 6 || id == 9 || id == 16 || id == 28 || id == 31 || id == 34 || id == 43 || id == 45
    ensures forall id :: id in PlaygroundsIndoorImages ==> WellFormed(PlaygroundsIndoorImages[id])
  {
  }

  lemma WaterparksShape()
    ensures forall id :: id in WaterparksImages <==> id == 30 || id == 36 || id == 39 || id == 40
    ensures forall id :: id in WaterparksImages ==> WellFormed(WaterparksImages[id])
  {
  }

  lemma AttractionsShape()
    ensures forall id :: id in AttractionsImages <==> id == 17 || id == 23 || id == 24 || id == 27 || id == 35 || id == 42 || id == 46
    ensures forall id :: id in AttractionsImages ==> WellFormed(AttractionsImages[id])
  {
  }

  /** The ids of the six groups together are 1 through 50. */
  lemma GroupIdsCoverRange(id: int)
    ensures 1 <= id <= 50 <==>
              id == 1 || id == 12 || id == 15 || id == 18 || id == 20 || id == 37 || id == 47 || id == 2 || id == 7 || id == 13
              || id == 25 || id == 29 || id == 32 || id == 41 || id == 44 || id == 3 || id == 8 || id == 10 || id == 11 || id == 14
              || id == 19 || id == 21 || id == 22 || id == 26 || id == 33 || id == 38 || id == 48 || id == 49 || id == 50 || id == 4
              || id == 5 || id == 6 || id == 9 || id == 16 || id == 28 || id == 31 || id == 34 || id == 43 || id == 45 || id == 30
              || id == 36 || id == 39 || id == 40 || id == 17 || id == 23 || id == 24 || id == 27 || id == 35 || id == 42 || id == 46
  {
  }

  /** Every id in the table is one of 1 through 50. */
  lemma TableIdInRange(id: int)
    requires id in LocationImageMap
    ensures 1 <= id <= 50
  {
    ParksShape();
    MuseumsShape();
    OutdoorsGardensShape();
    PlaygroundsIndoorShape();
    WaterparksShape();
    AttractionsShape();
    GroupIdsCoverRange(id);
  }

  /** Every id from 1 through 50 is in the table. */
  lemma TableHasId(id: int)
    requires 1 <= id <= 50
    ensures id in LocationImageMap
  {
    ParksShape();
    MuseumsShape();
    OutdoorsGardensShape();
    PlaygroundsIndoorShape();
    WaterparksShape();
    AttractionsShape();
    GroupIdsCoverRange(id);
  }

  /** The table covers exactly the ids 1 through 50. */
  lemma TableKeys()
    ensures forall id :: id in LocationImageMap <==> 1 <= id <= 50
  {
    forall id ensures id in LocationImageMap <==> 1 <= id <= 50 {
      if id in LocationImageMap {
        TableIdInRange(id);
      }
      if 1 <= id <= 50 {
        TableHasId(id);
      }
    }
  }

  /** Merging two tables of well-formed sets gives one. */
  lemma MergeWellFormed(a: map<int, LocationImages>, b: map<int, LocationImages>)
    requires forall id :: id in a ==> WellFormed(a[id])
    requires forall id :: id in b ==> WellFormed(b[id])
    ensures forall id :: id in a + b ==> WellFormed((a + b)[id])
  {
  }

  /** Every set in the table is well formed, and so is the default. */
  lemma TableWellFormed()
    ensures forall id :: id in LocationImageMap ==> WellFormed(LocationImageMap[id])
    ensures WellFormed(DefaultImages)
  {
    ParksShape();
    MuseumsShape();
    OutdoorsGardensShape();
    PlaygroundsIndoorShape();
    WaterparksShape();
    AttractionsShape();
    MergeWellFormed(ParksImages, MuseumsImages);
    MergeWellFormed(ParksImages + MuseumsImages, OutdoorsGardensImages);
    MergeWellFormed(ParksImages + MuseumsImages + OutdoorsGardensImages, PlaygroundsIndoorImages);
    MergeWellFormed(ParksImages + MuseumsImages + OutdoorsGardensImages + PlaygroundsIndoorImages, WaterparksImages);
    MergeWellFormed(ParksImages + MuseumsImages + OutdoorsGardensImages + PlaygroundsIndoorImages + WaterparksImages, AttractionsImages);
  }

  /** `getLocationImages`: the listed set for a listed id, the default for
      any other. */
  function GetLocationImages(id: int): (r: LocationImages)
    ensures id in LocationImageMap ==> r == LocationImageMap[id]
    ensures id !in LocationImageMap ==> r == DefaultImages
  {
    if id in LocationImageMap then LocationImageMap[id] else DefaultImages
  }

  /** Whatever the id, the images come well formed. */
  lemma ImagesAlwaysWellFormed(id: int)
    ensures WellFormed(GetLocationImages(id))
    ensures 1 <= id <= 50 ==> GetLocationImages(id) == LocationImageMap[id]
    ensures !(1 <= id <= 50) ==> GetLocationImages(id) == DefaultImages
  {
    TableKeys();
    TableWellFormed();
  }
}
