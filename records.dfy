/** The plain records the application stores (src/types.ts). Weights and
    tares are integer hundredths of a kilogram; collo counts are naturals.
    Optional text fields the core never reads (dimensions, contact data)
    are not carried. */
module Records {
  import opened Base

  datatype Um = KG | PZ
  datatype WeightType = FIXED | VARIABLE

  datatype MasterArticle = MasterArticle(
    code: string,
    description: string,
    gtin: string,
    origin: string,
    um: Um,
    unitWeight: int,          // used only when weightType is FIXED (or um is PZ)
    weightType: WeightType,
    defaultPackagingId: string)

  datatype MasterPackaging = MasterPackaging(id: string, name: string, tare: int)

  datatype MasterPallet = MasterPallet(id: string, name: string, tare: int)

  datatype MasterRecipient = MasterRecipient(code: string, name: string, address: string)

  /** One physical pallet attached to a line: its own instance id and a
      copy of the master's tare. */
  datatype LinePallet = LinePallet(instanceId: string, masterId: string, name: string, tare: int)

  datatype PalletLine = PalletLine(
    id: string,
    articleCode: string,
    batch: string,
    count: nat,               // number of colli
    harvestDate: string,
    packagingId: string,
    packagingTare: int,       // unit packaging tare, copied when chosen
    pallets: seq<LinePallet>,
    grossWeight: int,         // scale reading (derived for fixed-weight articles)
    netWeight: int)           // always computed

  datatype PalletHistory = PalletHistory(
    id: string,
    sscc: string,
    recipientCode: string,
    date: string,
    lines: seq<PalletLine>,
    ddtId: Option<string>,    // link to the transport document, if any
    totalNetWeight: int,
    totalGrossWeight: int,
    totalTare: int)

  /** The carrier and transport fields of a DDT, which the core only copies. */
  datatype Transport = Transport(
    carrierName: string,
    carrierAddress: string,
    transportReason: string,
    goodsAppearance: string,
    transportStartDateTime: string,
    port: string,
    licensePlate: string,
    trailerPlate: string)

  datatype MasterDdt = MasterDdt(
    id: string,
    number: string,
    date: string,
    recipientCode: string,
    palletIds: seq<string>,
    transport: Transport,
    palletCount: nat)

  function ArticleCode(a: MasterArticle): string { a.code }
  function PackagingId(p: MasterPackaging): string { p.id }
  function PalletMasterId(p: MasterPallet): string { p.id }
  function RecipientCode(r: MasterRecipient): string { r.code }

  /** `articles.find(a => a.code === code)`. */
  function FindArticle(articles: seq<MasterArticle>, code: string): Option<MasterArticle> {
    Find(articles, code, ArticleCode)
  }

  /** `packagings.find(p => p.id === id)`. */
  function FindPackaging(packagings: seq<MasterPackaging>, id: string): Option<MasterPackaging> {
    Find(packagings, id, PackagingId)
  }

  /** `palletMasters.find(p => p.id === id)`. */
  function FindPalletMaster(masters: seq<MasterPallet>, id: string): Option<MasterPallet> {
    Find(masters, id, PalletMasterId)
  }

  /** `recipients.find(r => r.code === code)`. */
  function FindRecipient(recipients: seq<MasterRecipient>, code: string): Option<MasterRecipient> {
    Find(recipients, code, RecipientCode)
  }
}
