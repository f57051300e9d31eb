/** The static agronomy table of `app.py` (`crop_data`) and its lookup with a fallback. */
module Crops {

  /** One row of `crop_data`: a growing tip and a fertiliser recommendation. */
  datatype CropInfo = CropInfo(tip: string, fert: string)

  /** `crop_data`: the 22 crop labels the classifier was trained on. */
  const CropTable: map<string, CropInfo> := map[
    "rice" := CropInfo("Rice grows best in clayey soil with plenty of water and high humidity.",
              "Use urea and potash-rich fertilizers regularly for higher yield."),
    "maize" := CropInfo("Maize requires warm weather, moderate rainfall, and loamy soil.",
               "Apply DAP and potash; avoid overwatering the plants."),
    "chickpea" := CropInfo("Chickpea thrives in dry, cool climates and sandy soil.",
                  "Use phosphate fertilizer before sowing for strong roots."),
    "kidneybeans" := CropInfo("Kidney beans prefer cool weather and well-drained loamy soil.",
                     "Use compost and potash fertilizers for better yield."),
    "pigeonpeas" := CropInfo("Pigeon peas need warm, semi-arid climates and loamy soil.",
                    "Use phosphate and organic manure during early stages."),
    "mothbeans" := CropInfo("Moth beans grow well in dry, sandy soil with little rainfall.",
                   "Add nitrogen and phosphate fertilizers moderately."),
    "mungbean" := CropInfo("Mung beans prefer warm weather and sandy loam soil.",
                  "Use DAP and compost before sowing."),
    "blackgram" := CropInfo("Black gram requires warm, humid weather and loamy soil.",
                   "Apply nitrogen and phosphate fertilizers early."),
    "lentil" := CropInfo("Lentil grows best in cool, dry climate and sandy soil.",
                "Add phosphate fertilizer before sowing for better pods."),
    "pomegranate" := CropInfo("Pomegranate grows in hot, dry climate and loamy soil.",
                     "Use nitrogen and potash during flowering stage."),
    "banana" := CropInfo("Banana requires humid climate and rich, organic soil.",
                "Add potassium and compost regularly."),
    "mango" := CropInfo("Mango grows in hot, dry climates and loamy soil.",
               "Apply nitrogen and potash before flowering season."),
    "grapes" := CropInfo("Grapes grow in hot, dry climate and well-drained soil.",
                "Use potash and compost for stronger vines."),
    "watermelon" := CropInfo("Watermelon needs sandy soil and warm temperatures.",
                    "Use potash and compost for sweeter fruits."),
    "muskmelon" := CropInfo("Muskmelon grows well in sandy loam soil with good drainage.",
                   "Use nitrogen and compost during early growth."),
    "apple" := CropInfo("Apple needs cool climate and loamy soil with good drainage.",
               "Apply organic manure and potash before flowering."),
    "orange" := CropInfo("Orange prefers subtropical climate and sandy loam soil.",
                "Use nitrogen and potash fertilizers twice yearly."),
    "papaya" := CropInfo("Papaya grows in warm climate and fertile, well-drained soil.",
                "Use nitrogen and phosphate for better fruiting."),
    "coconut" := CropInfo("Coconut thrives in sandy coastal soil with high humidity.",
                 "Use organic compost and potash twice a year."),
    "cotton" := CropInfo("Cotton grows well in black soil under warm conditions.",
                "Use NPK mix fertilizers during flowering."),
    "jute" := CropInfo("Jute needs humid, warm climate and loamy soil.",
              "Use organic manure and potash before sowing."),
    "coffee" := CropInfo("Coffee requires shade, humid weather, and rich soil.",
                "Use nitrogen and compost regularly to maintain yield.")
  ]

  /** The default of `crop_data.get(pred, ...)` in `predict`. */
  const Fallback: CropInfo := CropInfo("No information available.", "Use balanced NPK fertilizers.")

  /** Every row of the table has both fields filled in, and none is the fallback row. */
  lemma TableRowsDefined(crop: string)
    requires crop in CropTable
    ensures CropTable[crop].tip != [] && CropTable[crop].fert != []
    ensures CropTable[crop] != Fallback
  {
  }

  /** `crop_data.get(pred, Fallback)`: the table's row for a known label and the fallback
      row for every other label, so a tip and a recommendation are always present. */
  function Lookup(crop: string): (info: CropInfo)
    ensures info.tip != [] && info.fert != []
    ensures crop in CropTable ==> info == CropTable[crop]
    ensures info == Fallback <==> crop !in CropTable
  {
    if crop in CropTable then
      TableRowsDefined(crop);
      CropTable[crop]
    else Fallback
  }
}
