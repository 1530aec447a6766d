/** The background gradient of the weather detail view, chosen by the condition label. */
module WeatherUtils {

  const ClearBackground := "bg-gradient-to-br from-blue-400 to-yellow-200"
  const RainBackground := "bg-gradient-to-br from-gray-400 to-blue-600"
  const CloudsBackground := "bg-gradient-to-br from-gray-300 to-gray-500"
  const SnowBackground := "bg-gradient-to-br from-white to-blue-200"
  const DefaultBackground := "bg-gradient-to-br from-gray-100 to-gray-300"

  /** The labels with their own background; labels match exactly, case included. */
  const LabelledBackgrounds: map<string, string> := map[
    "Clear" := ClearBackground,
    "Rain" := RainBackground,
    "Clouds" := CloudsBackground,
    "Snow" := SnowBackground]

  /**
   * `getWeatherBackground`: a total lookup that gives each of the four labels
   * its gradient and every other string the neutral default, so it returns
   * one of exactly five strings.
   */
  function WeatherBackground(weatherMain: string): (r: string)
    ensures r == if weatherMain in LabelledBackgrounds then LabelledBackgrounds[weatherMain]
                 else DefaultBackground
    ensures r in {ClearBackground, RainBackground, CloudsBackground, SnowBackground, DefaultBackground}
  {
    match weatherMain
    case "Clear" => ClearBackground
    case "Rain" => RainBackground
    case "Clouds" => CloudsBackground
    case "Snow" => SnowBackground
    case _ => DefaultBackground
  }

  /**
   * The background tells the labelled conditions apart: two labels share a
   * background exactly when they are equal or both fall back to the default.
   */
  lemma BackgroundIdentifiesCondition(a: string, b: string)
    ensures WeatherBackground(a) == WeatherBackground(b) <==>
            a == b || (a !in LabelledBackgrounds && b !in LabelledBackgrounds)
  {
  }
}
